/** The per-line handlers of the feed loaders (`namespace LineParsers`): what
    one line of each RJIS file adds to the record store. Each handler is a
    function on `Tables`, which states its effect, and a method that performs
    it on the `Store` the way the program does. Reading the files, the reader
    queue and the progress output are not part of this model. */
module LineParsers {
  import opened Wrappers
  import opened Text
  import opened Ordered
  import opened RJISDate
  import opened Codes
  import opened RJISTypes
  import opened RJISMaps

  // ---------------------------------------------------------------------
  // Flow file (FFL)

  /** A flow record: length 49, `RF`, and a usage code other than `C` at column 18. */
  predicate IsFlowLine(line: string)
  {
    |line| == 49 && line[0] == 'R' && line[1] == 'F' && line[18] != 'C'
  }

  /** A fare record: length 22 and `RT`. */
  predicate IsFareLine(line: string)
  {
    |line| == 22 && line[0] == 'R' && line[1] == 'T'
  }

  /** The flow a flow record is filed under: origin at column 2, destination at 6. */
  function LineFlow(line: string, offset: nat): (f: Flow)
    requires offset + 8 <= |line|
    ensures f.origin == line[offset..offset + 4] && f.destination == line[offset + 4..offset + 8]
  {
    Flow(Field(line, offset, 4), Field(line, offset + 4, 4))
  }

  /** The entries a flow record adds: the record under its flow and, for
      direction `R` at column 19, the same record under the reversed flow. */
  function FlowLineEntries(line: string): (r: seq<(Flow, FFLFlowMainValue)>)
    requires IsFlowLine(line)
    ensures |r| == if line[19] == 'R' then 2 else 1
    ensures r[0] == (Flow(line[2..6], line[6..10]), DecodeFlow(line, 10))
    ensures line[19] == 'R' ==> r[1] == (Flow(line[6..10], line[2..6]), DecodeFlow(line, 10))
  {
    var flow := LineFlow(line, 2);
    var value := DecodeFlow(line, 10);
    if line[19] == 'R' then [(flow, value), (flow.Reverse(), value)] else [(flow, value)]
  }

  /** What one line of the flow file adds: a flow record (see
      `FlowLineEntries`), or a fare record under the flow id in columns 2-8. */
  function FFLLine(t: Tables, line: string): (r: Tables)
    ensures r.(flowMainFlows := t.flowMainFlows, flowMainFares := t.flowMainFares) == t
    ensures |r.flowMainFlows| >= |t.flowMainFlows| && |r.flowMainFares| >= |t.flowMainFares|
    ensures |r.flowMainFlows| > |t.flowMainFlows| <==> IsFlowLine(line)
    ensures |r.flowMainFares| > |t.flowMainFares| <==> !IsFlowLine(line) && IsFareLine(line)
    ensures |r.flowMainFares| <= |t.flowMainFares| + 1
    ensures r.flowMainFlows[..|t.flowMainFlows|] == t.flowMainFlows
    ensures r.flowMainFares[..|t.flowMainFares|] == t.flowMainFares
  {
    if IsFlowLine(line) then t.(flowMainFlows := t.flowMainFlows + FlowLineEntries(line))
    else if IsFareLine(line) then
      t.(flowMainFares := t.flowMainFares + [(DecimalValue(line[2..9]), DecodeFareRecord(line, 9))])
    else t
  }

  /** A flow line with direction `R` makes the flow findable from both ends,
      with the same record; any other flow line only from its own origin. */
  lemma FlowLineBothDirections(m: seq<(Flow, FFLFlowMainValue)>, line: string)
    requires IsFlowLine(line)
    ensures (var f, v := Flow(line[2..6], line[6..10]), DecodeFlow(line, 10);
             var flows := m + FlowLineEntries(line);
             && (line[19] != 'R' ==> EqualRange(flows, f) == EqualRange(m, f) + [v])
             && (line[19] != 'R' && f.Reverse() != f ==> EqualRange(flows, f.Reverse()) == EqualRange(m, f.Reverse()))
             && (line[19] == 'R' && f.Reverse() != f ==>
                   EqualRange(flows, f) == EqualRange(m, f) + [v]
                   && EqualRange(flows, f.Reverse()) == EqualRange(m, f.Reverse()) + [v]))
  {
    var f, v := Flow(line[2..6], line[6..10]), DecodeFlow(line, 10);
    var e := FlowLineEntries(line);
    EqualRangeSnoc(m, e[0], f);
    EqualRangeSnoc(m, e[0], f.Reverse());
    if line[19] == 'R' {
      assert m + e == (m + [e[0]]) + [e[1]];
      EqualRangeSnoc(m + [e[0]], e[1], f);
      EqualRangeSnoc(m + [e[0]], e[1], f.Reverse());
    } else {
      assert m + e == m + [e[0]];
    }
  }

  /** A fare line whose flow id columns are digits is filed under a flow id
      below 10^7. */
  lemma FareLineFlowId(t: Tables, line: string)
    requires !IsFlowLine(line) && IsFareLine(line) && AllDigits(line[2..9])
    ensures (var fares := FFLLine(t, line).flowMainFares;
             |fares| == |t.flowMainFares| + 1 && 0 <= fares[|fares| - 1].0 < 10000000
             && fares[|fares| - 1] == (DecimalValue(line[2..9]), DecodeFareRecord(line, 9)))
  {
    DecimalValueBound(line[2..9]);
    assert Pow10(7) == 10000000 by {
      assert Pow10(3) == 1000;
      assert Pow10(5) == 100 * Pow10(3);
    }
  }

  /** The value of `n` digits lies in 0..10^n-1. */
  lemma {:induction false} DecimalValueBound(s: string)
    requires AllDigits(s)
    ensures 0 <= DecimalValue(s) < Pow10(|s|)
  {
    if s != [] {
      DecimalValueBound(s[..|s| - 1]);
    }
  }

  /** The flow file handler. The fare record's flow id is accumulated digit by
      digit over columns 2-8, as the program does. */
  method AddFFLLine(st: Store, line: string)
    modifies st
    ensures st.tables == FFLLine(old(st.tables), line)
  {
    if |line| == 49 && line[0] == 'R' && line[1] == 'F' && line[18] != 'C' {
      var flow := LineFlow(line, 2);
      var value := SetFlow(line, 10);
      var flows := st.tables.flowMainFlows + [(flow, value)];
      if line[19] == 'R' {
        flow := flow.Reverse();
        flows := flows + [(flow, value)];
      }
      assert flows == old(st.tables.flowMainFlows) + FlowLineEntries(line);
      st.tables := st.tables.(flowMainFlows := flows);
    } else if |line| == 22 && line[0] == 'R' && line[1] == 'T' {
      var flowid := 0;
      var i := 0;
      while i < 7
        invariant 0 <= i <= 7
        invariant flowid == DecimalValue(line[2..2 + i])
        invariant st.tables == old(st.tables)
      {
        assert line[2..2 + i + 1] == line[2..2 + i] + [line[2 + i]];
        DecimalValueAppend(line[2..2 + i], line[2 + i]);
        flowid := flowid * 10 + DigitValue(line[2 + i]);
        i := i + 1;
      }
      var value := DecodeFareRecord(line, 9);
      var fares := st.tables.flowMainFares + [(flowid, value)];
      st.tables := st.tables.(flowMainFares := fares);

    }
  }

  // ---------------------------------------------------------------------
  // Cluster file (FSC)

  predicate IsClusterLine(line: string) { |line| == 25 && line[0] == 'R' }

  /** A cluster line (cluster at column 1, station at 5, date range at 9)
      appends the range to `clusters[station][cluster]` and the station to
      `decluster[cluster]`. */
  function ClustersLine(t: Tables, line: string): (r: Tables)
    requires t.Valid()
    ensures r.Valid()
    ensures IsClusterLine(line) ==> (
      var cluster, station := line[1..5], line[5..9];
      && Lookup(Inner(r.clusters, station), cluster)
           == Some(Lookup(Inner(t.clusters, station), cluster).GetOr([]) + [DecodeRange(line, 9, false)])
      && (forall c :: c != cluster ==> Lookup(Inner(r.clusters, station), c) == Lookup(Inner(t.clusters, station), c))
      && (forall s :: s != station ==> Inner(r.clusters, s) == Inner(t.clusters, s))
      && ListAt(r.decluster, cluster) == ListAt(t.decluster, cluster) + [station]
      && (forall c :: c != cluster ==> ListAt(r.decluster, c) == ListAt(t.decluster, c)))
    ensures !IsClusterLine(line) ==> r == t
    ensures r.(clusters := t.clusters, decluster := t.decluster) == t
  {
    if IsClusterLine(line) then
      var cluster, station := Field(line, 1, 4), Field(line, 5, 4);
      var range := DecodeRange(line, 9, false);
      StrLessIsOrder();
      var inner := AppendAt(Inner(t.clusters, station), StrLess, cluster, range);
      var r := t.(clusters := t.clusters[station := inner],
                  decluster := t.decluster[cluster := ListAt(t.decluster, cluster) + [station]]);
      assert forall s :: s in r.clusters ==> Sorted(r.clusters[s], StrLess) by {
        forall s | s in r.clusters ensures Sorted(r.clusters[s], StrLess) {
          if s != station { assert r.clusters[s] == t.clusters[s]; }
        }
      }
      r
    else t
  }

  method AddClustersLine(st: Store, line: string)
    requires st.tables.Valid()
    modifies st
    ensures st.tables == ClustersLine(old(st.tables), line)
  {
    if |line| == 25 && line[0] == 'R' {
      st.tables := ClustersLine(st.tables, line);
    }
  }

  // ---------------------------------------------------------------------
  // Location file (LOC)

  predicate IsLocationLine(line: string)
  {
    |line| == 289 && line[0] == 'R' && line[1] == 'L' && line[2] == '7' && line[3] == '0'
  }

  /** `UNLC::SetCountyCode`: the county group of a two-character county code. */
  function CountyNLC(county: string): (c: NLC)
    ensures c == "CC" + county
  {
    "CC" + county
  }

  /** `groups[station][group].push_back(2999-12-31)` and `degroup[group].push_back(station)`. */
  function AddGroup(t: Tables, station: NLC, group: NLC): (r: Tables)
    requires t.Valid()
    ensures r.Valid()
    ensures Lookup(Inner(r.groups, station), group) == Some(Lookup(Inner(t.groups, station), group).GetOr([]) + [FarFuture])
    ensures Keys(Inner(r.groups, station)) == Keys(Inner(t.groups, station)) + {group}
    ensures forall g :: g != group ==> Lookup(Inner(r.groups, station), g) == Lookup(Inner(t.groups, station), g)
    ensures forall s :: s != station ==> Inner(r.groups, s) == Inner(t.groups, s)
    ensures ListAt(r.degroup, group) == ListAt(t.degroup, group) + [station]
    ensures forall g :: g != group ==> ListAt(r.degroup, g) == ListAt(t.degroup, g)
    ensures r.(groups := t.groups, degroup := t.degroup) == t
  {
    StrLessIsOrder();
    var inner := AppendAt(Inner(t.groups, station), StrLess, group, FarFuture);
    var r := t.(groups := t.groups[station := inner],
                degroup := t.degroup[group := ListAt(t.degroup, group) + [station]]);
    assert forall s :: s in r.groups ==> Sorted(r.groups[s], StrLess) by {
      forall s | s in r.groups ensures Sorted(r.groups[s], StrLess) {
        if s != station { assert r.groups[s] == t.groups[s]; }
      }
    }
    r
  }

  /** A location line (key NLC at column 36, fare group at 69, county at 75)
      registers the county group when both county characters are
      alphanumeric, stores the location, and registers the fare group when it
      differs from the key. */
  function LocationsLine(t: Tables, line: string): (r: Tables)
    requires t.Valid()
    ensures r.Valid()
    ensures !IsLocationLine(line) ==> r == t
    ensures IsLocationLine(line) ==> r.locations == t.locations + [(line[36..40], DecodeLocation(line, 9))]
    ensures r.(groups := t.groups, degroup := t.degroup, locations := t.locations) == t
  {
    if IsLocationLine(line) then
      var key, group := line[36..40], line[69..73];
      var t1 := LocationCountyStep(t, line);
      var t2 := t1.(locations := t1.locations + [(key, DecodeLocation(line, 9))]);
      if key != group then AddGroup(t2, key, group) else t2
    else t
  }

  /** The groups a location line gives its station: the county group exactly
      when both county characters are alphanumeric, the fare group exactly when
      it differs from the station; each gains one membership ending
      2999-12-31 and lists the station among its members. */
  lemma LocationGroupsAdded(t: Tables, line: string, g: NLC)
    requires t.Valid() && IsLocationLine(line)
    requires (IsAlnum(line[75]) && IsAlnum(line[76]) && g == CountyNLC(line[75..77]))
             || (line[36..40] != line[69..73] && g == line[69..73])
    ensures g in Keys(Inner(LocationsLine(t, line).groups, line[36..40]))
    ensures line[36..40] in ListAt(LocationsLine(t, line).degroup, g)
  {
    var key, group := line[36..40], line[69..73];
    var t1 := LocationCountyStep(t, line);
    var t2 := t1.(locations := t1.locations + [(key, DecodeLocation(line, 9))]);
    var r := LocationsLine(t, line);
    assert r == if key != group then AddGroup(t2, key, group) else t2;
    if IsAlnum(line[75]) && IsAlnum(line[76]) {
      AddGroupKeeps(t, key, CountyNLC(line[75..77]), g);
    }
    var gs, ds := t2.groups, t2.degroup;
    assert gs == t1.groups && ds == t1.degroup;
    if key != group {
      AddGroupKeeps(t2, key, group, g);
    }
  }

  /** The county step of a location line. */
  function LocationCountyStep(t: Tables, line: string): (r: Tables)
    requires t.Valid() && IsLocationLine(line)
    ensures r.Valid()
  {
    if IsAlnum(line[75]) && IsAlnum(line[76]) then AddGroup(t, line[36..40], CountyNLC(line[75..77])) else t
  }

  /** After `AddGroup` the station has the group and every group it had, and
      each group lists every station it listed. */
  lemma AddGroupKeeps(t: Tables, station: NLC, group: NLC, g: NLC)
    requires t.Valid()
    ensures (g == group || g in Keys(Inner(t.groups, station))) ==> g in Keys(Inner(AddGroup(t, station, group).groups, station))
    ensures (g == group || station in ListAt(t.degroup, g)) ==> station in ListAt(AddGroup(t, station, group).degroup, g)
  {
  }

  /** A group that is neither the county group nor a fare group other than
      the station keeps its memberships and members. */
  lemma LocationGroupsOthers(t: Tables, line: string, g: NLC)
    requires t.Valid() && IsLocationLine(line)
    requires !(IsAlnum(line[75]) && IsAlnum(line[76]) && g == CountyNLC(line[75..77]))
    requires !(line[36..40] != line[69..73] && g == line[69..73])
    ensures Lookup(Inner(LocationsLine(t, line).groups, line[36..40]), g) == Lookup(Inner(t.groups, line[36..40]), g)
    ensures ListAt(LocationsLine(t, line).degroup, g) == ListAt(t.degroup, g)
  {
    var key, group := line[36..40], line[69..73];
    var t1 := LocationCountyStep(t, line);
    var t2 := t1.(locations := t1.locations + [(key, DecodeLocation(line, 9))]);
    assert t2.groups == t1.groups && t2.degroup == t1.degroup;
    assert Lookup(Inner(t1.groups, key), g) == Lookup(Inner(t.groups, key), g);
    if key != group {
      assert LocationsLine(t, line) == AddGroup(t2, key, group);
    } else {
      assert LocationsLine(t, line) == t2;
    }
  }

  /** Other stations' group tables are untouched by a location line. */
  lemma LocationOtherStations(t: Tables, line: string, s: NLC)
    requires t.Valid() && IsLocationLine(line) && s != line[36..40]
    ensures Inner(LocationsLine(t, line).groups, s) == Inner(t.groups, s)
  {
  }

  method AddLocationsLine(st: Store, line: string)
    requires st.tables.Valid()
    modifies st
    ensures st.tables == LocationsLine(old(st.tables), line)
  {
    if |line| == 289 && line[0] == 'R' && line[1] == 'L' && line[2] == '7' && line[3] == '0' {
      var key, group := Field(line, 36, 4), Field(line, 69, 4);
      if IsAlnum(line[75]) && IsAlnum(line[76]) {
        st.tables := AddGroup(st.tables, key, CountyNLC(line[75..77]));
      }
      st.tables := st.tables.(locations := st.tables.locations + [(key, DecodeLocation(line, 9))]);
      if key != group {
        st.tables := AddGroup(st.tables, key, group);
      }
    }
    // `RM` records (length 27) are recognised and ignored.
  }

  // ---------------------------------------------------------------------
  // Auxiliary files: plusbus NLCs and plusbus restrictions

  /** Neither empty nor a `/` comment. */
  predicate IsDataLine(line: string) { |line| > 0 && line[0] != '/' }

  /** A plusbus NLC line maps the main station at column 0 to the plusbus
      NLC at column 4, replacing an earlier mapping; a data line whose length
      is not 8 is an error. */
  function PlusBusNLCLine(t: Tables, line: string): (r: Result<Tables, string>)
    ensures r.Err? <==> IsDataLine(line) && |line| != 8
    ensures !IsDataLine(line) ==> r == Ok(t)
    ensures IsDataLine(line) && |line| == 8 ==> (
      && r.Ok? && line[0..4] in r.value.plusbusNLCMap && r.value.plusbusNLCMap[line[0..4]] == line[4..8]
      && (forall k :: k != line[0..4] ==> (k in r.value.plusbusNLCMap <==> k in t.plusbusNLCMap))
      && (forall k :: k != line[0..4] && k in t.plusbusNLCMap ==> r.value.plusbusNLCMap[k] == t.plusbusNLCMap[k])
      && r.value.(plusbusNLCMap := t.plusbusNLCMap) == t)
  {
    if !IsDataLine(line) then Ok(t)
    else if |line| != 8 then Err("plusbus NLC file - line length not equal to 8")
    else Ok(t.(plusbusNLCMap := t.plusbusNLCMap[Field(line, 0, 4) := Field(line, 4, 4)]))
  }

  /** When two lines name the same main station, the later one's plusbus NLC is kept. */
  lemma PlusBusNLCLaterWins(t: Tables, first: string, second: string)
    requires |first| == 8 && |second| == 8 && first[0] != '/' && second[0] != '/'
    requires first[0..4] == second[0..4]
    ensures (var r1 := PlusBusNLCLine(t, first).value;
             PlusBusNLCLine(r1, second).value.plusbusNLCMap[first[0..4]] == second[4..8])
  {
  }

  method AddPlusBusNLCLine(st: Store, line: string) returns (r: Result<(), string>)
    modifies st
    ensures r.Ok? <==> PlusBusNLCLine(old(st.tables), line).Ok?
    ensures r.Ok? ==> st.tables == PlusBusNLCLine(old(st.tables), line).value
    ensures r.Err? ==> st.tables == old(st.tables)
  {
    if |line| > 0 && line[0] != '/' {
      if |line| != 8 {
        return Err("plusbus NLC file - line length not equal to 8");
      }
      var main, plusbus := Field(line, 0, 4), Field(line, 4, 4);
      st.tables := st.tables.(plusbusNLCMap := st.tables.plusbusNLCMap[main := plusbus]);
    }
    r := Ok(());
  }

  /** A plusbus restriction line adds the flow it names to the restriction
      set; a data line whose length is not 8 is an error. */
  function PlusBusRestrictionsLine(t: Tables, line: string): (r: Result<Tables, string>)
    ensures r.Err? <==> IsDataLine(line) && |line| != 8
    ensures !IsDataLine(line) ==> r == Ok(t)
    ensures IsDataLine(line) && |line| == 8 ==> (
      && r.Ok? && r.value.plusbusRestrictionSet == t.plusbusRestrictionSet + {Flow(line[0..4], line[4..8])}
      && r.value.(plusbusRestrictionSet := t.plusbusRestrictionSet) == t)
  {
    if !IsDataLine(line) then Ok(t)
    else if |line| != 8 then Err("plusbus restrictions file - line length not equal to 8")
    else Ok(t.(plusbusRestrictionSet := t.plusbusRestrictionSet + {LineFlow(line, 0)}))
  }

  method AddPlusBusRestrictionsLine(st: Store, line: string) returns (r: Result<(), string>)
    modifies st
    ensures r.Ok? <==> PlusBusRestrictionsLine(old(st.tables), line).Ok?
    ensures r.Ok? ==> st.tables == PlusBusRestrictionsLine(old(st.tables), line).value
    ensures r.Err? ==> st.tables == old(st.tables)
  {
    if |line| > 0 && line[0] != '/' {
      if |line| != 8 {
        return Err("plusbus restrictions file - line length not equal to 8");
      }
      st.tables := st.tables.(plusbusRestrictionSet := st.tables.plusbusRestrictionSet + {LineFlow(line, 0)});
    }
    r := Ok(());
  }

  // ---------------------------------------------------------------------
  // Reference files: ticket types, non-derivable fares, railcards,
  // non-standard and standard discounts, auxiliary groups

  /** A ticket type line (length 113, `R`) files the type under the ticket code at column 1. */
  function TicketTypeLine(t: Tables, line: string): (r: Tables)
    ensures |line| == 113 && line[0] == 'R' ==> r == t.(ticketTypes := t.ticketTypes + [(line[1..4], DecodeTicketType(line, 4))])
    ensures !(|line| == 113 && line[0] == 'R') ==> r == t
  {
    if |line| == 113 && line[0] == 'R' then t.(ticketTypes := t.ticketTypes + [(Field(line, 1, 3), DecodeTicketType(line, 4))])
    else t
  }

  /** A non-derivable fare line (length 67, `R`): the record at column 9 under the flow at column 1. */
  function NDFLine(entries: seq<(Flow, NDFMainValue)>, line: string): (r: seq<(Flow, NDFMainValue)>)
    ensures |line| == 67 && line[0] == 'R' ==> r == entries + [(Flow(line[1..5], line[5..9]), DecodeNDF(line, 9))]
    ensures !(|line| == 67 && line[0] == 'R') ==> r == entries
  {
    if |line| == 67 && line[0] == 'R' then entries + [(LineFlow(line, 1), DecodeNDF(line, 9))] else entries
  }

  /** A railcard line (length 127, not starting with a backslash): the record at column 3 under the code at column 0. */
  function RailcardLine(t: Tables, line: string): (r: Tables)
    ensures |line| == 127 && line[0] != '\\' ==> r == t.(railcards := t.railcards + [(line[0..3], DecodeRailcard(line, 3))])
    ensures !(|line| == 127 && line[0] != '\\') ==> r == t
  {
    if |line| == 127 && line[0] != '\\' then t.(railcards := t.railcards + [(Field(line, 0, 3), DecodeRailcard(line, 3))])
    else t
  }

  /** A non-standard discount line (length 68, `R`) is appended to the discount list. */
  function NSDiscountsLine(t: Tables, line: string): (r: Tables)
    ensures |line| == 68 && line[0] == 'R' ==> r == t.(nonStandardDiscounts := t.nonStandardDiscounts + [DecodeNSDisc(line, 1)])
    ensures !(|line| == 68 && line[0] == 'R') ==> r == t
  {
    if |line| == 68 && line[0] == 'R' then t.(nonStandardDiscounts := t.nonStandardDiscounts + [DecodeNSDisc(line, 1)])
    else t
  }

  /** A standard discount file line: a `D` record of length 18 (status and
      category key at column 1, value at 4), or an `S` record of length 99
      (status and end date key at column 1, value text from column 12). */
  function StandardDiscountsLine(t: Tables, line: string): (r: Tables)
    ensures |line| == 18 && line[0] == 'D' ==>
      r == t.(standardDiscounts := t.standardDiscounts + [(DecodeSDiscountKey(line, 1), DecodeSDiscountValue(line, 4))])
    ensures |line| == 99 && line[0] == 'S' ==>
      r == t.(statusStandardDiscounts := t.statusStandardDiscounts + [(DecodeStatusKey(line, 1), line[12..])])
    ensures !(|line| == 18 && line[0] == 'D') && !(|line| == 99 && line[0] == 'S') ==> r == t
  {
    if |line| == 18 && line[0] == 'D' then
      t.(standardDiscounts := t.standardDiscounts + [(DecodeSDiscountKey(line, 1), DecodeSDiscountValue(line, 4))])
    else if |line| == 99 && line[0] == 'S' then
      t.(statusStandardDiscounts := t.statusStandardDiscounts + [(DecodeStatusKey(line, 1), line[12..])])
    else t
  }

  /** An auxiliary group line (length 9, `R`) adds the group at column 5 to
      the set of the station at column 1. */
  function AuxGroupsLine(t: Tables, line: string): (r: Tables)
    requires t.Valid()
    ensures r.Valid()
    ensures |line| == 9 && line[0] == 'R' ==> (
      && (forall g :: g in ListAt(r.auxGroups, line[1..5]) <==> g in ListAt(t.auxGroups, line[1..5]) || g == line[5..9])
      && (forall s :: s != line[1..5] ==> ListAt(r.auxGroups, s) == ListAt(t.auxGroups, s)))
    ensures !(|line| == 9 && line[0] == 'R') ==> r == t
    ensures r.(auxGroups := t.auxGroups) == t
  {
    if |line| == 9 && line[0] == 'R' then
      var station, group := Field(line, 1, 4), Field(line, 5, 4);
      StrLessIsOrder();
      var r := t.(auxGroups := t.auxGroups[station := SetInsert(ListAt(t.auxGroups, station), StrLess, group)]);
      assert forall s :: s in r.auxGroups ==> SortedSet(r.auxGroups[s], StrLess) by {
        forall s | s in r.auxGroups ensures SortedSet(r.auxGroups[s], StrLess) {
          if s != station { assert r.auxGroups[s] == t.auxGroups[s]; }
        }
      }
      r
    else t
  }

  /** The railcard minimum fare handler: a line of length 30 not starting
      with a backslash is decoded, and nothing is stored. */
  method AddRailcardMinFaresLine(st: Store, line: string)
    ensures st.tables == old(st.tables)
  {
    if |line| == 30 && line[0] != '\\' {
      var key := DecodeRailcardMinKey(line, 0);
      var value := DecodeRailcardMinValue(line, 6);
    }
  }

  // ---------------------------------------------------------------------
  // Restrictions file (RST)

  /** A restrictions-file line the handler looks at: longer than 3
      characters and not a `/` comment; its record type is columns 1-2. */
  predicate IsRestrictionRecord(line: string, recordType: string)
  {
    |line| > 3 && line[0] != '/' && line[1..3] == recordType
  }

  /** An `RD` record, the `count`-th seen: a third one is an error; `C` at
      column 3 sets the current restriction period and `F` the future one,
      each read start date first from column 4. */
  function RDLine(t: Tables, count: int, line: string): (r: Result<Tables, string>)
    requires |line| > 3
    ensures count > 2 ==> r.Err?
    ensures count <= 2 && line[3] != 'C' && line[3] != 'F' ==> r == Ok(t)
    ensures count <= 2 && line[3] == 'C' && |line| >= 20 ==> r == Ok(t.(currentDateRange := DecodeRange(line, 4, true)))
    ensures count <= 2 && line[3] == 'F' && |line| >= 20 ==> r == Ok(t.(futureDateRange := DecodeRange(line, 4, true)))
  {
    if count > 2 then Err("more than two RD records in the restrictions file.")
    else if line[3] != 'C' && line[3] != 'F' then Ok(t)
    else if |line| < 20 then Err("short RD record")
    else if line[3] == 'C' then Ok(t.(currentDateRange := DecodeRange(line, 4, true)))
    else Ok(t.(futureDateRange := DecodeRange(line, 4, true)))
  }

  /** A railcard restriction record: key at column 3, record at 7. */
  function RRLine(t: Tables, line: string): (r: Result<Tables, string>)
    ensures |line| >= 25 ==> r == Ok(t.(rrMap := t.rrMap + [(DecodeRRKey(line, 3), DecodeRR(line, 7))]))
    ensures |line| < 25 ==> r.Err?
  {
    if |line| < 25 then Err("short RR record")
    else Ok(t.(rrMap := t.rrMap + [(DecodeRRKey(line, 3), DecodeRR(line, 7))]))
  }

  /** A time restriction record: key at column 3, record at 6, an error when
      its times are not digits. */
  function TRLine(t: Tables, line: string): (r: Result<Tables, string>)
    ensures |line| >= 26 ==> (r.Ok? <==> DecodeTR(line, 6).Ok?)
    ensures |line| >= 26 && r.Ok? ==> r.value == t.(trMap := t.trMap + [(DecodeRestrictionsKey(line, 3), DecodeTR(line, 6).value)])
    ensures |line| < 26 ==> r.Err?
  {
    if |line| < 26 then Err("short TR record")
    else match DecodeTR(line, 6)
      case Err(e) => Err(e)
      case Ok(tr) => Ok(t.(trMap := t.trMap + [(DecodeRestrictionsKey(line, 3), tr)]))
  }

  /** A holiday date record: key at column 3, record at 6, an error when its
      dates are not digits. */
  function HDLine(t: Tables, line: string): (r: Result<Tables, string>)
    ensures |line| >= 21 ==> (r.Ok? <==> DecodeHD(line, 6).Ok?)
    ensures |line| >= 21 && r.Ok? ==> r.value == t.(hdMap := t.hdMap + [(DecodeRestrictionsKey(line, 3), DecodeHD(line, 6).value)])
    ensures |line| < 21 ==> r.Err?
  {
    if |line| < 21 then Err("short HD record")
    else match DecodeHD(line, 6)
      case Err(e) => Err(e)
      case Ok(hd) => Ok(t.(hdMap := t.hdMap + [(DecodeRestrictionsKey(line, 3), hd)]))
  }

  /** What one restrictions-file line does, given how many `RD` records came
      before it: the new tables and count, or the exception the program
      raises. A record too short for its fields is an error here (the program
      reads past the end of the line). */
  function RestrictionsLine(t: Tables, dateRecordCount: int, line: string): (r: Result<(Tables, int), string>)
    ensures r.Ok? ==> r.value.1 == dateRecordCount + (if IsRestrictionRecord(line, "RD") then 1 else 0)
    ensures IsRestrictionRecord(line, "RD") && dateRecordCount >= 2 ==> r.Err?
    ensures (!IsRestrictionRecord(line, "RD") && !IsRestrictionRecord(line, "RR")
             && !IsRestrictionRecord(line, "TR") && !IsRestrictionRecord(line, "HD")) ==> r == Ok((t, dateRecordCount))
  {
    if IsRestrictionRecord(line, "RD") then
      match RDLine(t, dateRecordCount + 1, line)
      case Err(e) => Err(e)
      case Ok(t1) => Ok((t1, dateRecordCount + 1))
    else
      var r := if IsRestrictionRecord(line, "RR") then RRLine(t, line)
        else if IsRestrictionRecord(line, "TR") then TRLine(t, line)
        else if IsRestrictionRecord(line, "HD") then HDLine(t, line)
        else Ok(t);
      match r
      case Err(e) => Err(e)
      case Ok(t1) => Ok((t1, dateRecordCount))
  }

  /** The number of `RD` records among the lines. */
  function RDCount(lines: seq<string>): (n: nat)
    ensures n <= |lines|
  {
    if lines == [] then 0 else (if IsRestrictionRecord(lines[0], "RD") then 1 else 0) + RDCount(lines[1..])
  }

  /** The restrictions file read line by line from a given `RD` count. */
  function RestrictionsLines(t: Tables, dateRecordCount: int, lines: seq<string>): Result<(Tables, int), string>
    decreases |lines|
  {
    if lines == [] then Ok((t, dateRecordCount))
    else match RestrictionsLine(t, dateRecordCount, lines[0])
      case Err(e) => Err(e)
      case Ok((t1, c1)) => RestrictionsLines(t1, c1, lines[1..])
  }

  /** A file with more than two `RD` records is rejected; a file that loads
      leaves the count at its number of `RD` records. */
  lemma {:induction false} RestrictionsFileRDLimit(t: Tables, dateRecordCount: int, lines: seq<string>)
    requires 0 <= dateRecordCount <= 2
    decreases |lines|
    ensures dateRecordCount + RDCount(lines) > 2 ==> RestrictionsLines(t, dateRecordCount, lines).Err?
    ensures (var r := RestrictionsLines(t, dateRecordCount, lines);
             r.Ok? ==> r.value.1 == dateRecordCount + RDCount(lines))
  {
    if lines != [] {
      var first := RestrictionsLine(t, dateRecordCount, lines[0]);
      assert RDCount(lines) == (if IsRestrictionRecord(lines[0], "RD") then 1 else 0) + RDCount(lines[1..]);
      if first.Ok? {
        var t1, c1 := first.value.0, first.value.1;
        assert RestrictionsLines(t, dateRecordCount, lines) == RestrictionsLines(t1, c1, lines[1..]);
        RestrictionsFileRDLimit(t1, c1, lines[1..]);
      }
    }
  }

  /** The restrictions file handler with its function-static count of `RD` records. */
  class RestrictionsReader {
    var dateRecordCount: int

    constructor ()
      ensures dateRecordCount == 0
    {
      dateRecordCount := 0;
    }

    method ProcessLine(st: Store, line: string) returns (r: Result<(), string>)
      modifies this, st
      ensures var e := RestrictionsLine(old(st.tables), old(dateRecordCount), line);
        && (r.Ok? <==> e.Ok?)
        && (e.Ok? ==> st.tables == e.value.0 && dateRecordCount == e.value.1)
        && (e.Err? ==> st.tables == old(st.tables))
      ensures dateRecordCount == old(dateRecordCount) + (if IsRestrictionRecord(line, "RD") then 1 else 0)
    {
      var e := RestrictionsLine(st.tables, dateRecordCount, line);
      match e {
        case Err(msg) =>
          // the count is incremented before the third `RD` record is rejected
          if IsRestrictionRecord(line, "RD") {
            dateRecordCount := dateRecordCount + 1;
          }
          return Err(msg);
        case Ok((t, c)) =>
          st.tables := t;
          dateRecordCount := c;
          r := Ok(());
      }
    }
  }
}
