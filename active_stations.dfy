/** The active stations and the single-origin filtered fare sets
    (`ActiveStations.cpp`). A code is degrouped into the real stations it
    stands for; the active set is every station some flow, NDF or NFO starts
    or ends at; each active station with a lettered CRS code gets a folder,
    and every record whose degrouped origin includes the station is routed
    to that station's files. Folder creation, file handles and writing are
    not modelled: a station's files are the sequences of records routed to
    it, in the order they are written. */
module ActiveStationSets {
  import opened Wrappers
  import opened Ordered
  import opened Text
  import opened Codes
  import opened RJISTypes
  import opened RJISMaps

  // ---- DeGroupIndividualStation ----

  /** What a code that is not expanded as a cluster stands for: the members
      of its group, or the code itself when it is not a group. */
  function GroupMembers(t: Tables, m: NLC): set<NLC>
  {
    if m in t.degroup then (set x | x in t.degroup[m]) else {m}
  }

  /** The members of a cluster, each group among them replaced by its members. */
  function MembersExpansion(t: Tables, members: seq<NLC>): set<NLC>
  {
    if members == [] then {}
    else MembersExpansion(t, members[..|members| - 1]) + GroupMembers(t, members[|members| - 1])
  }

  /** The stations `DeGroupIndividualStation` inserts for `nlc`. */
  function DeGrouped(t: Tables, nlc: NLC, decluster: bool): set<NLC>
  {
    if decluster && nlc in t.decluster then MembersExpansion(t, t.decluster[nlc]) else GroupMembers(t, nlc)
  }

  lemma {:induction false} MembersExpansionIff(t: Tables, members: seq<NLC>, x: NLC)
    ensures x in MembersExpansion(t, members) <==> exists i :: 0 <= i < |members| && x in GroupMembers(t, members[i])
  {
    if members != [] {
      var n := |members|;
      MembersExpansionIff(t, members[..n - 1], x);
      if x in GroupMembers(t, members[n - 1]) {
        assert 0 <= n - 1 < |members| && x in GroupMembers(t, members[n - 1]);
      }
      if exists i :: 0 <= i < |members| && x in GroupMembers(t, members[i]) {
        var i :| 0 <= i < |members| && x in GroupMembers(t, members[i]);
        if i < n - 1 {
          assert members[..n - 1][i] == members[i];
        }
      }
    }
  }

  /** A cluster (when declustering) stands for its members, groups among them
      expanded one level and no further; the cluster code itself is not
      inserted. Any other code stands for its group's members, or itself. */
  lemma DeGroupedIff(t: Tables, nlc: NLC, decluster: bool, x: NLC)
    ensures decluster && nlc in t.decluster ==>
      (x in DeGrouped(t, nlc, decluster) <==>
        exists i :: 0 <= i < |t.decluster[nlc]|
          && ((t.decluster[nlc][i] in t.degroup && x in t.degroup[t.decluster[nlc][i]])
              || (t.decluster[nlc][i] !in t.degroup && x == t.decluster[nlc][i])))
    ensures !(decluster && nlc in t.decluster) ==>
      (x in DeGrouped(t, nlc, decluster) <==> (nlc in t.degroup && x in t.degroup[nlc]) || (nlc !in t.degroup && x == nlc))
  {
    if decluster && nlc in t.decluster {
      MembersExpansionIff(t, t.decluster[nlc], x);
    }
  }

  /** Without declustering the cluster table is never consulted. */
  lemma DeGroupedIgnoresClusters(t: Tables, nlc: NLC, clusters: map<NLC, seq<NLC>>)
    ensures DeGrouped(t, nlc, false) == DeGrouped(t.(decluster := clusters), nlc, false)
  {
    assert GroupMembers(t, nlc) == GroupMembers(t.(decluster := clusters), nlc);
  }

  /** `DeGroupIndividualStation`: the set only grows, by the stations the code stands for. */
  method DeGroupIndividualStation(activeStationSet: set<NLC>, t: Tables, nlc: NLC, decluster: bool)
    returns (r: set<NLC>)
    ensures activeStationSet <= r
    ensures r == activeStationSet + DeGrouped(t, nlc, decluster)
  {
    r := activeStationSet;
    var clusterFound := false;
    if decluster {
      if nlc in t.decluster {
        clusterFound := true;
        var members := t.decluster[nlc];
        var i := 0;
        while i < |members|
          invariant 0 <= i <= |members|
          invariant r == activeStationSet + MembersExpansion(t, members[..i])
        {
          assert members[..i + 1][..i] == members[..i];
          r := InsertMembers(r, t, members[i]);
          i := i + 1;
        }
        assert members[..i] == members;
      }
    }
    if !clusterFound {
      r := InsertMembers(r, t, nlc);
    }
  }

  /** The group lookup of one code: its group's members are inserted, or the code itself. */
  method InsertMembers(s: set<NLC>, t: Tables, m: NLC) returns (r: set<NLC>)
    ensures r == s + GroupMembers(t, m)
  {
    if m in t.degroup {
      var stations := t.degroup[m];
      r := s;
      var k := 0;
      while k < |stations|
        invariant 0 <= k <= |stations|
        invariant r == s + (set x | x in stations[..k])
      {
        assert stations[..k + 1] == stations[..k] + [stations[k]];
        r := r + {stations[k]};
        k := k + 1;
      }
      assert stations[..k] == stations;
    } else {
      r := s + {m};
    }
  }

  // ---- The active station set ----

  /** The degrouped, declustered origins and destinations of a table's records. */
  function EndsExpansion<V>(t: Tables, entries: seq<(Flow, V)>): set<NLC>
  {
    if entries == [] then {}
    else
      var last := entries[|entries| - 1];
      EndsExpansion(t, entries[..|entries| - 1]) + DeGrouped(t, last.0.origin, true) + DeGrouped(t, last.0.destination, true)
  }

  /** Every station from or to which the flow, NDF or NFO tables hold a record. */
  function ActiveSet(t: Tables): set<NLC>
  {
    EndsExpansion(t, t.flowMainFlows) + EndsExpansion(t, t.ndfMain) + EndsExpansion(t, t.nfoMain)
  }

  /** Some record of the table starts or ends at a code standing for `x`. */
  predicate HasEnd<V>(t: Tables, entries: seq<(Flow, V)>, x: NLC)
  {
    exists i :: 0 <= i < |entries|
      && (x in DeGrouped(t, entries[i].0.origin, true) || x in DeGrouped(t, entries[i].0.destination, true))
  }

  lemma {:induction false} EndsExpansionIff<V>(t: Tables, entries: seq<(Flow, V)>, x: NLC)
    ensures x in EndsExpansion(t, entries) <==> HasEnd(t, entries, x)
  {
    if entries != [] {
      var n := |entries|;
      var init := entries[..n - 1];
      EndsExpansionIff(t, init, x);
      if exists i :: 0 <= i < n && (x in DeGrouped(t, entries[i].0.origin, true) || x in DeGrouped(t, entries[i].0.destination, true)) {
        var i :| 0 <= i < n && (x in DeGrouped(t, entries[i].0.origin, true) || x in DeGrouped(t, entries[i].0.destination, true));
        if i < n - 1 {
          assert init[i] == entries[i];
        }
      }
      if x in DeGrouped(t, entries[n - 1].0.origin, true) || x in DeGrouped(t, entries[n - 1].0.destination, true) {
        assert 0 <= n - 1 < n;
      }
      if exists i :: 0 <= i < n - 1 && (x in DeGrouped(t, init[i].0.origin, true) || x in DeGrouped(t, init[i].0.destination, true)) {
        var i :| 0 <= i < n - 1 && (x in DeGrouped(t, init[i].0.origin, true) || x in DeGrouped(t, init[i].0.destination, true));
        assert init[i] == entries[i];
      }
    }
  }

  /** A station is active exactly when some flow, NDF or NFO record has an
      origin or destination that stands for it. */
  lemma ActiveSetIff(t: Tables, x: NLC)
    ensures x in ActiveSet(t) <==> HasEnd(t, t.flowMainFlows, x) || HasEnd(t, t.ndfMain, x) || HasEnd(t, t.nfoMain, x)
  {
    EndsExpansionIff(t, t.flowMainFlows, x);
    EndsExpansionIff(t, t.ndfMain, x);
    EndsExpansionIff(t, t.nfoMain, x);
  }

  /** The loop over one table in the constructor. */
  method ExpandEnds<V>(s: set<NLC>, t: Tables, entries: seq<(Flow, V)>) returns (r: set<NLC>)
    ensures r == s + EndsExpansion(t, entries)
  {
    r := s;
    var i := 0;
    while i < |entries|
      invariant 0 <= i <= |entries|
      invariant r == s + EndsExpansion(t, entries[..i])
    {
      assert entries[..i + 1][..i] == entries[..i];
      r := DeGroupIndividualStation(r, t, entries[i].0.origin, true);
      r := DeGroupIndividualStation(r, t, entries[i].0.destination, true);
      i := i + 1;
    }
    assert entries[..i] == entries;
  }

  // ---- Routing records to single-origin files ----

  /** The records of a table whose degrouped origin includes `n`, in table
      order: the contents of `n`'s single-origin file for that table. */
  function RoutedTo<V>(t: Tables, entries: seq<(Flow, V)>, n: NLC, decluster: bool): seq<(Flow, V)>
  {
    if entries == [] then []
    else
      var last := entries[|entries| - 1];
      RoutedTo(t, entries[..|entries| - 1], n, decluster) + (if n in DeGrouped(t, last.0.origin, decluster) then [last] else [])
  }

  lemma {:induction false} RoutedToIff<V>(t: Tables, entries: seq<(Flow, V)>, n: NLC, decluster: bool, p: (Flow, V))
    ensures p in RoutedTo(t, entries, n, decluster) <==> p in entries && n in DeGrouped(t, p.0.origin, decluster)
  {
    if entries != [] {
      var init := entries[..|entries| - 1];
      RoutedToIff(t, init, n, decluster, p);
      assert entries == init + [entries[|entries| - 1]];
    }
  }

  /** The flow ids recorded for `n` while its flow records are written: a
      sorted set, as `std::set<int>` iterates. */
  function UsedFlowIds(t: Tables, flows: seq<(Flow, FFLFlowMainValue)>, n: NLC): (r: seq<int>)
    ensures SortedSet(r, IntLess)
  {
    if flows == [] then []
    else
      var last := flows[|flows| - 1];
      var prev := UsedFlowIds(t, flows[..|flows| - 1], n);
      if n in DeGrouped(t, last.0.origin, true) then
        IntLessIsOrder();
        SetInsert(prev, IntLess, last.1.flowid)
      else prev
  }

  /** A flow id is recorded for `n` exactly when a flow routed to `n` has it. */
  lemma {:induction false} UsedFlowIdsIff(t: Tables, flows: seq<(Flow, FFLFlowMainValue)>, n: NLC, id: int)
    ensures id in UsedFlowIds(t, flows, n) <==>
      exists p :: p in flows && n in DeGrouped(t, p.0.origin, true) && p.1.flowid == id
  {
    if flows != [] {
      var init, last := flows[..|flows| - 1], flows[|flows| - 1];
      UsedFlowIdsIff(t, init, n, id);
      IntLessIsOrder();
      assert flows == init + [last];
      assert forall p :: p in flows <==> p in init || p == last;
    }
  }

  /** The fare (T) records stored under one flow id, in insertion order. */
  function EntriesWithKey(fares: seq<(int, FFLFareMainValue)>, id: int): (r: seq<(int, FFLFareMainValue)>)
  {
    if fares == [] then []
    else EntriesWithKey(fares[..|fares| - 1], id) + (if fares[|fares| - 1].0 == id then [fares[|fares| - 1]] else [])
  }

  /** The fare records written to a file after its flow records: those of
      each recorded flow id, ids in increasing order. */
  function FaresOf(ids: seq<int>, fares: seq<(int, FFLFareMainValue)>): seq<(int, FFLFareMainValue)>
  {
    if ids == [] then []
    else FaresOf(ids[..|ids| - 1], fares) + EntriesWithKey(fares, ids[|ids| - 1])
  }

  lemma {:induction false} EntriesWithKeyIff(fares: seq<(int, FFLFareMainValue)>, id: int, p: (int, FFLFareMainValue))
    ensures p in EntriesWithKey(fares, id) <==> p in fares && p.0 == id
  {
    if fares != [] {
      var init := fares[..|fares| - 1];
      EntriesWithKeyIff(init, id, p);
      assert fares == init + [fares[|fares| - 1]];
    }
  }

  /** Fare records go to a file only for the flow ids recorded for it, and
      all fare records of those ids go there. */
  lemma {:induction false} FaresOfIff(ids: seq<int>, fares: seq<(int, FFLFareMainValue)>, p: (int, FFLFareMainValue))
    ensures p in FaresOf(ids, fares) <==> p in fares && p.0 in ids
  {
    if ids != [] {
      var init := ids[..|ids| - 1];
      FaresOfIff(init, fares, p);
      EntriesWithKeyIff(fares, ids[|ids| - 1], p);
      assert ids == init + [ids[|ids| - 1]];
    }
  }

  /** The fare records in `n`'s flow file are exactly the fare records of
      the flows routed to `n`. */
  lemma FareRecordsFollowFlows(t: Tables, n: NLC, p: (int, FFLFareMainValue))
    ensures p in FaresOf(UsedFlowIds(t, t.flowMainFlows, n), t.flowMainFares) <==>
      p in t.flowMainFares && exists f :: f in RoutedTo(t, t.flowMainFlows, n, true) && f.1.flowid == p.0
  {
    FaresOfIff(UsedFlowIds(t, t.flowMainFlows, n), t.flowMainFares, p);
    UsedFlowIdsIff(t, t.flowMainFlows, n, p.0);
    forall f ensures f in RoutedTo(t, t.flowMainFlows, n, true) <==> f in t.flowMainFlows && n in DeGrouped(t, f.0.origin, true) {
      RoutedToIff(t, t.flowMainFlows, n, true, f);
    }
  }

  /** One flow record of `WriteFFLFiles`: written to, and its flow id
      recorded for, every station its origin stands for that has a file. */
  method RouteFlow(flowFiles0: map<NLC, seq<(Flow, FFLFlowMainValue)>>, used0: map<NLC, seq<int>>, t: Tables,
                   handles: set<NLC>, ffl: (Flow, FFLFlowMainValue))
    returns (flowFiles: map<NLC, seq<(Flow, FFLFlowMainValue)>>, used: map<NLC, seq<int>>)
    requires flowFiles0.Keys == handles && used0.Keys <= handles
    requires forall n :: n in handles ==> SortedSet(ListAt(used0, n), IntLess)
    ensures flowFiles.Keys == handles && used.Keys <= handles
    ensures forall n :: n in handles ==>
      flowFiles[n] == flowFiles0[n] + (if n in DeGrouped(t, ffl.0.origin, true) then [ffl] else [])
    ensures forall n :: n in handles ==>
      ListAt(used, n) == if n in DeGrouped(t, ffl.0.origin, true) then SetInsert(ListAt(used0, n), IntLess, ffl.1.flowid) else ListAt(used0, n)
  {
    var usedNLCs := DeGroupIndividualStation({}, t, ffl.0.origin, true);
    flowFiles, used := WriteFlowToAll(flowFiles0, used0, handles, usedNLCs, ffl);
  }

  /** The loop over the stations the flow's origin stands for. */
  method WriteFlowToAll(flowFiles0: map<NLC, seq<(Flow, FFLFlowMainValue)>>, used0: map<NLC, seq<int>>,
                        handles: set<NLC>, usedNLCs: set<NLC>, ffl: (Flow, FFLFlowMainValue))
    returns (flowFiles: map<NLC, seq<(Flow, FFLFlowMainValue)>>, used: map<NLC, seq<int>>)
    requires flowFiles0.Keys == handles && used0.Keys <= handles
    requires forall n :: n in handles ==> SortedSet(ListAt(used0, n), IntLess)
    ensures flowFiles.Keys == handles && used.Keys <= handles
    ensures forall n :: n in handles ==> flowFiles[n] == flowFiles0[n] + (if n in usedNLCs then [ffl] else [])
    ensures forall n :: n in handles ==>
      ListAt(used, n) == if n in usedNLCs then SetInsert(ListAt(used0, n), IntLess, ffl.1.flowid) else ListAt(used0, n)
  {
    IntLessIsOrder();
    flowFiles, used := flowFiles0, used0;
    var remaining := usedNLCs;
    ghost var done: set<NLC> := {};
    while remaining != {}
      invariant remaining <= usedNLCs && done == usedNLCs - remaining
      invariant WrittenFor(flowFiles0, used0, handles, ffl, done, flowFiles, used)
      decreases remaining
    {
      var usedNLC :| usedNLC in remaining;
      if usedNLC in handles {
        WrittenStep(flowFiles0, used0, handles, ffl, done, flowFiles, used, usedNLC);
        flowFiles, used := WriteFlowTo(flowFiles, used, usedNLC, ffl);
      } else {
        WrittenSkip(flowFiles0, used0, handles, ffl, done, flowFiles, used, usedNLC);
      }
      remaining := remaining - {usedNLC};
      done := done + {usedNLC};
    }
  }

  /** The state of `WriteFlowToAll` once the stations of `done` are written. */
  ghost predicate WrittenFor(flowFiles0: map<NLC, seq<(Flow, FFLFlowMainValue)>>, used0: map<NLC, seq<int>>,
                             handles: set<NLC>, ffl: (Flow, FFLFlowMainValue), done: set<NLC>,
                             flowFiles: map<NLC, seq<(Flow, FFLFlowMainValue)>>, used: map<NLC, seq<int>>)
    requires flowFiles0.Keys == handles
  {
    && StrictTotalOrder(IntLess)
    && (forall n :: n in handles ==> SortedSet(ListAt(used0, n), IntLess))
    && FilesFor(flowFiles0, handles, ffl, done, flowFiles)
    && UsedFor(used0, handles, ffl.1.flowid, done, used)
  }

  /** The files once the stations of `done` have the record appended. */
  ghost predicate FilesFor(flowFiles0: map<NLC, seq<(Flow, FFLFlowMainValue)>>, handles: set<NLC>,
                           ffl: (Flow, FFLFlowMainValue), done: set<NLC>,
                           flowFiles: map<NLC, seq<(Flow, FFLFlowMainValue)>>)
    requires flowFiles0.Keys == handles
  {
    flowFiles.Keys == handles &&
    forall n :: n in handles ==> flowFiles[n] == flowFiles0[n] + (if n in done then [ffl] else [])
  }

  /** The recorded flow ids once the stations of `done` have `flowid` added. */
  ghost predicate UsedFor(used0: map<NLC, seq<int>>, handles: set<NLC>, flowid: int, done: set<NLC>,
                          used: map<NLC, seq<int>>)
    requires StrictTotalOrder(IntLess) && forall n :: n in handles ==> SortedSet(ListAt(used0, n), IntLess)
  {
    used.Keys <= handles &&
    forall n :: n in handles ==>
      ListAt(used, n) == if n in done then SetInsert(ListAt(used0, n), IntLess, flowid) else ListAt(used0, n)
  }

  lemma WrittenStep(flowFiles0: map<NLC, seq<(Flow, FFLFlowMainValue)>>, used0: map<NLC, seq<int>>,
                    handles: set<NLC>, ffl: (Flow, FFLFlowMainValue), done: set<NLC>,
                    flowFiles: map<NLC, seq<(Flow, FFLFlowMainValue)>>, used: map<NLC, seq<int>>, m: NLC)
    requires flowFiles0.Keys == handles && m in handles && m !in done
    requires WrittenFor(flowFiles0, used0, handles, ffl, done, flowFiles, used)
    ensures StrictTotalOrder(IntLess) && m in flowFiles && SortedSet(ListAt(used, m), IntLess)
    ensures WrittenFor(flowFiles0, used0, handles, ffl, done + {m},
                       flowFiles[m := flowFiles[m] + [ffl]],
                       used[m := SetInsert(ListAt(used, m), IntLess, ffl.1.flowid)])
  {
    FilesWritten(flowFiles0, handles, ffl, done, flowFiles, m);
    UsedWritten(used0, handles, ffl.1.flowid, done, used, m);
  }

  /** Appending the record to station `m`'s file extends the files written so far. */
  lemma FilesWritten(flowFiles0: map<NLC, seq<(Flow, FFLFlowMainValue)>>, handles: set<NLC>,
                     ffl: (Flow, FFLFlowMainValue), done: set<NLC>,
                     flowFiles: map<NLC, seq<(Flow, FFLFlowMainValue)>>, m: NLC)
    requires flowFiles0.Keys == handles && m in handles && m !in done
    requires FilesFor(flowFiles0, handles, ffl, done, flowFiles)
    ensures FilesFor(flowFiles0, handles, ffl, done + {m}, flowFiles[m := flowFiles[m] + [ffl]])
  {
  }

  /** Recording the flow id for station `m` extends the ids recorded so far. */
  lemma UsedWritten(used0: map<NLC, seq<int>>, handles: set<NLC>, flowid: int, done: set<NLC>,
                    used: map<NLC, seq<int>>, m: NLC)
    requires StrictTotalOrder(IntLess) && forall n :: n in handles ==> SortedSet(ListAt(used0, n), IntLess)
    requires m in handles && m !in done
    requires UsedFor(used0, handles, flowid, done, used)
    ensures SortedSet(ListAt(used, m), IntLess)
    ensures UsedFor(used0, handles, flowid, done + {m}, used[m := SetInsert(ListAt(used, m), IntLess, flowid)])
  {
    var added := SetInsert(ListAt(used0, m), IntLess, flowid);
    var u := used[m := added];
    forall n | n in handles
      ensures ListAt(u, n) == if n in done + {m} then SetInsert(ListAt(used0, n), IntLess, flowid) else ListAt(used0, n)
    {
      if n != m {
        assert ListAt(u, n) == ListAt(used, n);
      } else {
        assert ListAt(u, n) == added;
      }
    }
  }

  lemma WrittenSkip(flowFiles0: map<NLC, seq<(Flow, FFLFlowMainValue)>>, used0: map<NLC, seq<int>>,
                    handles: set<NLC>, ffl: (Flow, FFLFlowMainValue), done: set<NLC>,
                    flowFiles: map<NLC, seq<(Flow, FFLFlowMainValue)>>, used: map<NLC, seq<int>>, m: NLC)
    requires flowFiles0.Keys == handles && m !in handles
    requires WrittenFor(flowFiles0, used0, handles, ffl, done, flowFiles, used)
    ensures WrittenFor(flowFiles0, used0, handles, ffl, done + {m}, flowFiles, used)
  {
  }

  /** Writing a flow record to one station's file and recording its flow id. */
  method WriteFlowTo(flowFiles0: map<NLC, seq<(Flow, FFLFlowMainValue)>>, used0: map<NLC, seq<int>>,
                     usedNLC: NLC, ffl: (Flow, FFLFlowMainValue))
    returns (flowFiles: map<NLC, seq<(Flow, FFLFlowMainValue)>>, used: map<NLC, seq<int>>)
    requires StrictTotalOrder(IntLess)
    requires usedNLC in flowFiles0 && SortedSet(ListAt(used0, usedNLC), IntLess)
    ensures flowFiles == flowFiles0[usedNLC := flowFiles0[usedNLC] + [ffl]]
    ensures used == used0[usedNLC := SetInsert(ListAt(used0, usedNLC), IntLess, ffl.1.flowid)]
  {
    flowFiles := flowFiles0[usedNLC := flowFiles0[usedNLC] + [ffl]];
    used := used0[usedNLC := SetInsert(ListAt(used0, usedNLC), IntLess, ffl.1.flowid)];
  }

  /** `WriteFFLFiles`: the flow records of each station's file, then the
      fare records of the flow ids recorded for it. The stations' fare
      records are written station by station; files are independent, so the
      order of stations does not matter. */
  method WriteFFLFiles(t: Tables, handles: set<NLC>)
    returns (flowFiles: map<NLC, seq<(Flow, FFLFlowMainValue)>>, fareFiles: map<NLC, seq<(int, FFLFareMainValue)>>)
    ensures flowFiles.Keys == handles && fareFiles.Keys == handles
    ensures forall n :: n in handles ==> flowFiles[n] == RoutedTo(t, t.flowMainFlows, n, true)
    ensures forall n :: n in handles ==> fareFiles[n] == FaresOf(UsedFlowIds(t, t.flowMainFlows, n), t.flowMainFares)
  {
    var used;
    flowFiles, used := WriteFlowRecords(t, handles);
    fareFiles := WriteFareRecords(t, handles, used);
  }

  /** The first loop of `WriteFFLFiles`, over the flow records. */
  method WriteFlowRecords(t: Tables, handles: set<NLC>)
    returns (flowFiles: map<NLC, seq<(Flow, FFLFlowMainValue)>>, used: map<NLC, seq<int>>)
    ensures flowFiles.Keys == handles && used.Keys <= handles
    ensures forall n :: n in handles ==> flowFiles[n] == RoutedTo(t, t.flowMainFlows, n, true)
    ensures forall n :: n in handles ==> ListAt(used, n) == UsedFlowIds(t, t.flowMainFlows, n)
  {
    var flows := t.flowMainFlows;
    flowFiles := map n | n in handles :: [];
    used := map[];
    var i := 0;
    while i < |flows|
      invariant 0 <= i <= |flows|
      invariant flowFiles.Keys == handles && used.Keys <= handles
      invariant forall n :: n in handles ==> flowFiles[n] == RoutedTo(t, flows[..i], n, true)
      invariant forall n :: n in handles ==> ListAt(used, n) == UsedFlowIds(t, flows[..i], n)
    {
      assert flows[..i + 1][..i] == flows[..i];
      flowFiles, used := RouteFlow(flowFiles, used, t, handles, flows[i]);
      i := i + 1;
    }
    assert flows[..i] == flows;
  }

  /** The second loop of `WriteFFLFiles`, over the stations with recorded
      flow ids. Files are independent, so the order of stations does not matter. */
  method WriteFareRecords(t: Tables, handles: set<NLC>, used: map<NLC, seq<int>>)
    returns (fareFiles: map<NLC, seq<(int, FFLFareMainValue)>>)
    requires used.Keys <= handles
    ensures fareFiles.Keys == handles
    ensures forall n :: n in handles ==> fareFiles[n] == FaresOf(ListAt(used, n), t.flowMainFares)
  {
    fareFiles := map n | n in handles :: [];
    var remaining := used.Keys;
    while remaining != {}
      invariant remaining <= used.Keys
      invariant fareFiles.Keys == handles
      invariant forall n :: n in handles ==>
        fareFiles[n] == if n in used.Keys - remaining then FaresOf(used[n], t.flowMainFares) else []
      decreases remaining
    {
      var n :| n in remaining;
      var out := WriteFares([], used[n], t.flowMainFares);
      fareFiles := fareFiles[n := out];
      remaining := remaining - {n};
    }
  }

  /** The fare records of each flow id, in order, appended to a file. */
  method WriteFares(file: seq<(int, FFLFareMainValue)>, ids: seq<int>, fares: seq<(int, FFLFareMainValue)>)
    returns (r: seq<(int, FFLFareMainValue)>)
    ensures r == file + FaresOf(ids, fares)
  {
    r := file;
    var j := 0;
    while j < |ids|
      invariant 0 <= j <= |ids|
      invariant r == file + FaresOf(ids[..j], fares)
    {
      assert ids[..j + 1][..j] == ids[..j];
      AppendAssoc(file, FaresOf(ids[..j], fares), EntriesWithKey(fares, ids[j]));
      ghost var before := r;
      var k := 0;
      while k < |fares|
        invariant 0 <= k <= |fares|
        invariant r == before + EntriesWithKey(fares[..k], ids[j])
      {
        assert fares[..k + 1][..k] == fares[..k];
        AppendAssoc(before, EntriesWithKey(fares[..k], ids[j]), if fares[k].0 == ids[j] then [fares[k]] else []);
        if fares[k].0 == ids[j] {
          r := r + [fares[k]];
        }
        k := k + 1;
      }
      assert fares[..k] == fares;
      j := j + 1;
    }
    assert ids[..j] == ids;
  }

  /** One NDF or NFO record: written to every station its origin stands for,
      degrouped but not declustered, that has a file. */
  method RouteRecord<V>(files0: map<NLC, seq<(Flow, V)>>, t: Tables, handles: set<NLC>, rec: (Flow, V))
    returns (files: map<NLC, seq<(Flow, V)>>)
    requires files0.Keys == handles
    ensures files.Keys == handles
    ensures forall n :: n in handles ==> files[n] == files0[n] + (if n in DeGrouped(t, rec.0.origin, false) then [rec] else [])
  {
    var usedNLCs := DeGroupIndividualStation({}, t, rec.0.origin, false);
    files := WriteToAll(files0, handles, usedNLCs, rec);
  }

  /** The loop over the stations an NDF or NFO origin stands for. */
  method WriteToAll<V>(files0: map<NLC, seq<(Flow, V)>>, handles: set<NLC>, usedNLCs: set<NLC>, rec: (Flow, V))
    returns (files: map<NLC, seq<(Flow, V)>>)
    requires files0.Keys == handles
    ensures files.Keys == handles
    ensures forall n :: n in handles ==> files[n] == files0[n] + (if n in usedNLCs then [rec] else [])
  {
    files := files0;
    var remaining := usedNLCs;
    while remaining != {}
      invariant remaining <= usedNLCs
      invariant files.Keys == handles
      invariant forall n :: n in handles ==> files[n] == files0[n] + (if n in usedNLCs - remaining then [rec] else [])
      decreases remaining
    {
      var usedNLC :| usedNLC in remaining;
      if usedNLC in handles {
        files := files[usedNLC := files[usedNLC] + [rec]];
      }
      remaining := remaining - {usedNLC};
    }
  }

  /** `WriteNDFFiles` and `WriteNFOFiles`: each station's file holds the
      records whose degrouped origin includes it. */
  method WriteOriginFiles<V>(t: Tables, entries: seq<(Flow, V)>, handles: set<NLC>)
    returns (files: map<NLC, seq<(Flow, V)>>)
    ensures files.Keys == handles
    ensures forall n :: n in handles ==> files[n] == RoutedTo(t, entries, n, false)
  {
    files := map n | n in handles :: [];
    var i := 0;
    while i < |entries|
      invariant 0 <= i <= |entries|
      invariant files.Keys == handles
      invariant forall n :: n in handles ==> files[n] == RoutedTo(t, entries[..i], n, false)
    {
      assert entries[..i + 1][..i] == entries[..i];
      files := RouteRecord(files, t, handles, entries[i]);
      i := i + 1;
    }
    assert entries[..i] == entries;
  }

  // ---- MakeFilteredSets ----

  /** `ams::AddSlashIfMissing`, assumed to append a backslash to a non-empty
      directory not ending in a separator. */
  function AddSlashIfMissing(dir: string): (r: string)
    ensures |dir| <= |r| <= |dir| + 1 && r[..|dir|] == dir
    ensures dir != [] ==> r[|r| - 1] == '\\' || r[|r| - 1] == '/'
  {
    if dir != [] && dir[|dir| - 1] != '\\' && dir[|dir| - 1] != '/' then dir + "\\" else dir
  }

  /** A CRS code names a station folder when its three characters are letters. */
  predicate IsLetteredCRS(crs: CRSCode)
  {
    |crs| >= 3 && IsAlpha(crs[0]) && IsAlpha(crs[1]) && IsAlpha(crs[2])
  }

  /** The folder of a station's filtered set: under the set directory, the
      CRS code of its (first) location record, `-`, and the NLC, with a
      trailing separator; none when there is no location record or the CRS
      code is not three letters. */
  function FolderFor(t: Tables, n: NLC, setDir: string): (r: Option<string>)
    ensures r.Some? <==> EqualRange(t.locations, n) != [] && IsLetteredCRS(EqualRange(t.locations, n)[0].crsCode)
    ensures r.Some? ==> (var stem := setDir + EqualRange(t.locations, n)[0].crsCode + "-" + n;
                         |stem| <= |r.value| <= |stem| + 1 && r.value[..|stem|] == stem
                         && (r.value[|r.value| - 1] == '\\' || r.value[|r.value| - 1] == '/'))
  {
    var locs := EqualRange(t.locations, n);
    if locs == [] then None
    else
      var crs := locs[0].crsCode;
      if !IsLetteredCRS(crs) then None
      else
        var folder := setDir + crs + "-" + n;
        Some(if folder[|folder| - 1] != '\\' && folder[|folder| - 1] != '/' then folder + "\\" else folder)
  }

  /** One station's filtered fare set: its folder and the records of its
      FFL (flows, then fares), NDF and NFO files. */
  datatype FilteredSet = FilteredSet(
    folder: string,
    flows: seq<(Flow, FFLFlowMainValue)>,
    fares: seq<(int, FFLFareMainValue)>,
    ndfs: seq<(Flow, NDFMainValue)>,
    nfos: seq<(Flow, NDFMainValue)>)

  /** The folders made for the active stations. */
  function FolderMap(t: Tables, active: set<NLC>, dir: string): (r: map<NLC, string>)
    ensures forall n :: n in r <==> n in active && FolderFor(t, n, dir).Some?
  {
    map n | n in active && FolderFor(t, n, dir).Some? :: FolderFor(t, n, dir).value
  }

  /** The files written into the folders. */
  function SetsFor(t: Tables, folders: map<NLC, string>): (r: map<NLC, FilteredSet>)
    ensures r.Keys == folders.Keys
    ensures forall n :: n in folders ==>
      r[n] == FilteredSet(folders[n],
        RoutedTo(t, t.flowMainFlows, n, true),
        FaresOf(UsedFlowIds(t, t.flowMainFlows, n), t.flowMainFares),
        RoutedTo(t, t.ndfMain, n, false),
        RoutedTo(t, t.nfoMain, n, false))
  {
    map n | n in folders ::
      FilteredSet(folders[n],
        RoutedTo(t, t.flowMainFlows, n, true),
        FaresOf(UsedFlowIds(t, t.flowMainFlows, n), t.flowMainFares),
        RoutedTo(t, t.ndfMain, n, false),
        RoutedTo(t, t.nfoMain, n, false))
  }

  /** The filtered sets made from an active station set. */
  function FilteredSetsOf(t: Tables, active: set<NLC>, filterSetDir: string): (r: Result<map<NLC, FilteredSet>, string>)
    ensures r.Err? <==> filterSetDir == [] || active == {}
    ensures r.Ok? ==> forall n :: n in r.value <==> n in active && FolderFor(t, n, AddSlashIfMissing(filterSetDir)).Some?
  {
    if filterSetDir == [] then Err("no filteredSet folder specified - filtered fare set production skipped.")
    else if active == {} then Err("Warning: filtered fare set is empty.")
    else Ok(SetsFor(t, FolderMap(t, active, AddSlashIfMissing(filterSetDir))))
  }

  /** Flows are routed by declustered origin; NDFs and NFOs by degrouped
      origin only, so a cluster-origin NDF reaches no station's file unless
      the cluster code itself is one. */
  lemma RoutingModes(t: Tables, active: set<NLC>, filterSetDir: string, n: NLC)
    requires FilteredSetsOf(t, active, filterSetDir).Ok?
    requires n in FilteredSetsOf(t, active, filterSetDir).value
    ensures var s := FilteredSetsOf(t, active, filterSetDir).value[n];
      && (forall p :: p in s.flows <==> p in t.flowMainFlows && n in DeGrouped(t, p.0.origin, true))
      && (forall p :: p in s.ndfs <==> p in t.ndfMain && n in DeGrouped(t, p.0.origin, false))
      && (forall p :: p in s.nfos <==> p in t.nfoMain && n in DeGrouped(t, p.0.origin, false))
      && (forall p :: p in s.fares <==> p in t.flowMainFares && exists f :: f in s.flows && f.1.flowid == p.0)
  {
    var s := FilteredSetsOf(t, active, filterSetDir).value[n];
    forall p ensures p in s.flows <==> p in t.flowMainFlows && n in DeGrouped(t, p.0.origin, true) {
      RoutedToIff(t, t.flowMainFlows, n, true, p);
    }
    forall p ensures p in s.ndfs <==> p in t.ndfMain && n in DeGrouped(t, p.0.origin, false) {
      RoutedToIff(t, t.ndfMain, n, false, p);
    }
    forall p ensures p in s.nfos <==> p in t.nfoMain && n in DeGrouped(t, p.0.origin, false) {
      RoutedToIff(t, t.nfoMain, n, false, p);
    }
    forall p ensures p in s.fares <==> p in t.flowMainFares && exists f :: f in s.flows && f.1.flowid == p.0 {
      FareRecordsFollowFlows(t, n, p);
    }
  }

  /** The active station set, built once from the loaded tables. */
  class ActiveStations {
    var activeStationSet: set<NLC>

    /** The union of the degrouped, declustered ends of every flow, NDF and NFO. */
    constructor (t: Tables)
      ensures activeStationSet == ActiveSet(t)
    {
      var s := ExpandEnds({}, t, t.flowMainFlows);
      s := ExpandEnds(s, t, t.ndfMain);
      s := ExpandEnds(s, t, t.nfoMain);
      activeStationSet := s;
    }

    /** `GetList`: a copy of the set. */
    method GetList() returns (s: set<NLC>)
      ensures s == activeStationSet
    {
      s := activeStationSet;
    }

    /** `MakeFilteredSets`: a folder for every active station with a
        lettered CRS code, then the FFL, NDF and NFO records routed to it. */
    method MakeFilteredSets(t: Tables, filterSetDir: string) returns (r: Result<map<NLC, FilteredSet>, string>)
      ensures r == FilteredSetsOf(t, activeStationSet, filterSetDir)
    {
      if filterSetDir == [] {
        return Err("no filteredSet folder specified - filtered fare set production skipped.");
      }
      var dir := AddSlashIfMissing(filterSetDir);
      if activeStationSet == {} {
        return Err("Warning: filtered fare set is empty.");
      }
      var folders := MakeFolders(t, activeStationSet, dir);
      var sets := WriteSets(t, folders);
      r := Ok(sets);
    }
  }

  /** The FFL, NDF and NFO files of every station with a folder. */
  method WriteSets(t: Tables, folders: map<NLC, string>) returns (sets: map<NLC, FilteredSet>)
    ensures sets == SetsFor(t, folders)
  {
    var handles := folders.Keys;
    var flowFiles, fareFiles := WriteFFLFiles(t, handles);
    var ndfFiles := WriteOriginFiles(t, t.ndfMain, handles);
    var nfoFiles := WriteOriginFiles(t, t.nfoMain, handles);
    sets := map n | n in handles :: FilteredSet(folders[n], flowFiles[n], fareFiles[n], ndfFiles[n], nfoFiles[n]);
    ghost var expected := SetsFor(t, folders);
    assert forall n :: n in sets ==> sets[n] == expected[n];
    SameEntries(sets, expected);
  }

  lemma SameEntries(a: map<NLC, FilteredSet>, b: map<NLC, FilteredSet>)
    requires a.Keys == b.Keys
    requires forall n :: n in a ==> a[n] == b[n]
    ensures a == b
  {
  }

  /** The folder loop of `MakeFilteredSets`: an entry for every station
      whose folder name can be made. */
  method MakeFolders(t: Tables, active: set<NLC>, dir: string) returns (folders: map<NLC, string>)
    ensures folders == FolderMap(t, active, dir)
  {
    folders := map[];
    var remaining := active;
    while remaining != {}
      invariant remaining <= active
      invariant forall n :: n in folders <==> n in active - remaining && FolderFor(t, n, dir).Some?
      invariant forall n :: n in folders ==> folders[n] == FolderFor(t, n, dir).value
      decreases remaining
    {
      var thisNLC :| thisNLC in remaining;
      var folder := FolderFor(t, thisNLC, dir);
      if folder.Some? {
        folders := folders[thisNLC := folder.value];
      }
      remaining := remaining - {thisNLC};
    }
    assert folders.Keys == FolderMap(t, active, dir).Keys;
  }
}
