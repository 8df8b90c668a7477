/** `ProcessNDFs` (`ProcessFareList.cpp`): the non-derivable fares (NDFs)
    of one flow, overridden and suppressed by their NFO records, added to the
    NDF results.

    The local `foundNDFs` multimap holds records of a single flow, so it is
    a list in insertion order. Its iterators stay valid across erasure, so
    the list keeps a slot per record and an erased record leaves `None` in
    its slot; the `(route, ticket)` index maps a key to a slot position. */
module NDFMerge {
  import opened Wrappers
  import opened Ordered
  import opened RJISDate
  import opened Codes
  import opened RJISTypes
  import opened RJISMaps
  import opened FareResults

  /** `NDFFoundKey`: the (route, ticket code) of a found record. */
  datatype NDFFoundKey = NDFFoundKey(route: RouteCode, ticketCode: TicketCode)

  function KeyOf(v: NDFMainValue): NDFFoundKey
  {
    NDFFoundKey(v.route, v.ticket)
  }

  /** The date NDFs are checked against: the return date when asked for
      (plusbus return legs), else the travel date. */
  function SearchDate(p: FareSearchParams, useReturnDate: bool): Date
  {
    if useReturnDate then p.returnDate else p.travelDate
  }

  /** The four admission conditions shared by NDFs and NFOs: dates valid for
      the query date and the search date, the request's railcard, and the
      route and ticket filters empty or equal. */
  predicate Admits(v: NDFMainValue, p: FareSearchParams, date: Date)
  {
    v.seqDates.AreDatesValid(p.queryDate, date)
    && v.railcard == p.railcard
    && Matches(p.route, v.route)
    && Matches(p.ticketCode, v.ticket)
  }

  // ---------------------------------------------------------------------
  // Stage 1: the admitted NDFs

  function Admitted(vs: seq<NDFMainValue>, p: FareSearchParams, date: Date): (r: seq<NDFMainValue>)
    ensures forall v :: v in r <==> v in vs && Admits(v, p, date)
  {
    if vs == [] then []
    else
      var init, last := vs[..|vs| - 1], vs[|vs| - 1];
      assert vs == init + [last];
      Admitted(init, p, date) + (if Admits(last, p, date) then [last] else [])
  }

  method AdmitNDFs(vs: seq<NDFMainValue>, p: FareSearchParams, date: Date) returns (found: seq<NDFMainValue>)
    ensures found == Admitted(vs, p, date)
  {
    found := [];
    var i := 0;
    while i < |vs|
      invariant 0 <= i <= |vs|
      invariant found == Admitted(vs[..i], p, date)
    {
      assert vs[..i + 1][..i] == vs[..i];
      if Admits(vs[i], p, date) {
        found := found + [vs[i]];
      }
      i := i + 1;
    }
    assert vs[..i] == vs;
  }

  // ---------------------------------------------------------------------
  // Stage 2: the (route, ticket) index

  /** Every position the index holds is below `n`. */
  predicate IndexIn(index: map<NDFFoundKey, nat>, n: nat)
  {
    forall k :: k in index ==> index[k] < n
  }

  /** The index after inserting every found record with `map::insert`: the
      first record of a key keeps its place. */
  function FirstIndex(found: seq<NDFMainValue>): (index: map<NDFFoundKey, nat>)
    ensures IndexIn(index, |found|)
    ensures forall k :: k in index ==> KeyOf(found[index[k]]) == k
    ensures forall i :: 0 <= i < |found| ==> KeyOf(found[i]) in index
  {
    if found == [] then map[]
    else
      var prev := FirstIndex(found[..|found| - 1]);
      var k := KeyOf(found[|found| - 1]);
      if k in prev then prev else prev[k := |found| - 1]
  }

  /** For a key stored more than once, the index keeps the first record. */
  lemma {:induction false} FirstIndexKeepsFirst(found: seq<NDFMainValue>, k: NDFFoundKey)
    requires k in FirstIndex(found)
    ensures forall j :: 0 <= j < FirstIndex(found)[k] ==> KeyOf(found[j]) != k
  {
    var init := found[..|found| - 1];
    var prev := FirstIndex(init);
    assert forall j :: 0 <= j < |init| ==> init[j] == found[j];
    if k in prev {
      FirstIndexKeepsFirst(init, k);
      assert FirstIndex(found)[k] == prev[k];
    } else {
      assert FirstIndex(found)[k] == |init|;
      assert forall j :: 0 <= j < |init| ==> KeyOf(init[j]) in prev;
    }
  }

  /** One more record extends the index of the records before it. */
  lemma FirstIndexSnoc(found: seq<NDFMainValue>, i: nat)
    requires i < |found|
    ensures var prev := FirstIndex(found[..i]);
            FirstIndex(found[..i + 1]) == if KeyOf(found[i]) in prev then prev else prev[KeyOf(found[i]) := i]
  {
    assert found[..i + 1][..i] == found[..i];
  }

  method BuildIndex(found: seq<NDFMainValue>) returns (index: map<NDFFoundKey, nat>)
    ensures index == FirstIndex(found)
  {
    index := map[];
    var i := 0;
    while i < |found|
      invariant 0 <= i <= |found|
      invariant index == FirstIndex(found[..i])
    {
      FirstIndexSnoc(found, i);
      var key := KeyOf(found[i]);
      if key !in index {
        index := index[key := i];
      }
      i := i + 1;
    }
    assert found[..i] == found;
  }

  // ---------------------------------------------------------------------
  // Stage 3: the NFOs

  /** The found records (a slot per record, `None` once erased) and the
      suppressions collected so far. */
  datatype Found = Found(slots: seq<Option<NDFMainValue>>, suppressions: set<NDFFoundKey>)

  function Wrap(found: seq<NDFMainValue>): (r: seq<Option<NDFMainValue>>)
    ensures |r| == |found| && forall i :: 0 <= i < |found| ==> r[i] == Some(found[i])
  {
    seq(|found|, i requires 0 <= i < |found| => Some(found[i]))
  }

  /** One NFO: an admitted suppression is remembered; an admitted other NFO
      overwrites the record the index finds for its key, or is appended
      when there is none. */
  function NFOStep(st: Found, nfo: NDFMainValue, index: map<NDFFoundKey, nat>, p: FareSearchParams, date: Date): Found
    requires IndexIn(index, |st.slots|)
  {
    if !Admits(nfo, p, date) then st
    else if IsIndicated(nfo.suppressionMarker) then st.(suppressions := st.suppressions + {KeyOf(nfo)})
    else if KeyOf(nfo) in index then st.(slots := st.slots[index[KeyOf(nfo)] := Some(nfo)])
    else st.(slots := st.slots + [Some(nfo)])
  }

  function ApplyNFOs(st0: Found, nfos: seq<NDFMainValue>, index: map<NDFFoundKey, nat>, p: FareSearchParams, date: Date): (st: Found)
    requires IndexIn(index, |st0.slots|)
    ensures |st.slots| >= |st0.slots|
  {
    if nfos == [] then st0
    else NFOStep(ApplyNFOs(st0, nfos[..|nfos| - 1], index, p, date), nfos[|nfos| - 1], index, p, date)
  }

  method ApplyNFORecords(st0: Found, nfos: seq<NDFMainValue>, index: map<NDFFoundKey, nat>, p: FareSearchParams, date: Date)
    returns (st: Found)
    requires IndexIn(index, |st0.slots|)
    ensures st == ApplyNFOs(st0, nfos, index, p, date)
  {
    st := st0;
    var i := 0;
    while i < |nfos|
      invariant 0 <= i <= |nfos|
      invariant st == ApplyNFOs(st0, nfos[..i], index, p, date)
    {
      assert nfos[..i + 1][..i] == nfos[..i];
      var nfo := nfos[i];
      if IsIndicated(nfo.suppressionMarker) {
        if Admits(nfo, p, date) {
          st := st.(suppressions := st.suppressions + {KeyOf(nfo)});
        }
      } else if Admits(nfo, p, date) {
        var key := KeyOf(nfo);
        if key !in index {
          st := st.(slots := st.slots + [Some(nfo)]);
        } else {
          st := st.(slots := st.slots[index[key] := Some(nfo)]);
        }
      }
      i := i + 1;
    }
    assert nfos[..i] == nfos;
  }

  /** An admitted NFO that is not a suppression. */
  predicate Overrides(nfo: NDFMainValue, p: FareSearchParams, date: Date)
  {
    Admits(nfo, p, date) && !IsIndicated(nfo.suppressionMarker)
  }

  /** The NFOs appended as new records: those whose key the index lacks. */
  function Additions(nfos: seq<NDFMainValue>, index: map<NDFFoundKey, nat>, p: FareSearchParams, date: Date): seq<NDFMainValue>
  {
    if nfos == [] then []
    else
      var last := nfos[|nfos| - 1];
      Additions(nfos[..|nfos| - 1], index, p, date)
      + (if Overrides(last, p, date) && KeyOf(last) !in index then [last] else [])
  }

  /** The last NFO that overrides the records of key `k`, if any. */
  function LastOverride(nfos: seq<NDFMainValue>, k: NDFFoundKey, p: FareSearchParams, date: Date): Option<NDFMainValue>
  {
    if nfos == [] then None
    else
      var last := nfos[|nfos| - 1];
      if Overrides(last, p, date) && KeyOf(last) == k then Some(last)
      else LastOverride(nfos[..|nfos| - 1], k, p, date)
  }

  /** The keys of the admitted suppressions. */
  function SuppressionKeys(nfos: seq<NDFMainValue>, p: FareSearchParams, date: Date): set<NDFFoundKey>
  {
    set i | 0 <= i < |nfos| && Admits(nfos[i], p, date) && IsIndicated(nfos[i].suppressionMarker) :: KeyOf(nfos[i])
  }

  /** What the slot of found record `i` holds after the NFOs: the last
      override of its key if the index points at it, else the record itself
      (a duplicate the index does not reach is never overridden). */
  function SlotAfterNFOs(found: seq<NDFMainValue>, nfos: seq<NDFMainValue>, p: FareSearchParams, date: Date, i: nat): Option<NDFMainValue>
    requires i < |found|
  {
    var k := KeyOf(found[i]);
    if FirstIndex(found)[k] == i && LastOverride(nfos, k, p, date).Some? then LastOverride(nfos, k, p, date)
    else Some(found[i])
  }

  /** The state after the NFO loop, in full: found records overridden in
      place, additions appended in order, suppressions collected. */
  lemma {:induction false} ApplyNFOsShape(found: seq<NDFMainValue>, nfos: seq<NDFMainValue>, p: FareSearchParams, date: Date)
    ensures var index := FirstIndex(found);
      var st := ApplyNFOs(Found(Wrap(found), {}), nfos, index, p, date);
      && |st.slots| == |found| + |Additions(nfos, index, p, date)|
      && st.slots[|found|..] == Wrap(Additions(nfos, index, p, date))
      && (forall i :: 0 <= i < |found| ==> st.slots[i] == SlotAfterNFOs(found, nfos, p, date, i))
      && st.suppressions == SuppressionKeys(nfos, p, date)
  {
    var index := FirstIndex(found);
    if nfos != [] {
      var init, last := nfos[..|nfos| - 1], nfos[|nfos| - 1];
      ApplyNFOsShape(found, init, p, date);
      var prev := ApplyNFOs(Found(Wrap(found), {}), init, index, p, date);
      var st := ApplyNFOs(Found(Wrap(found), {}), nfos, index, p, date);
      assert st == NFOStep(prev, last, index, p, date);
      SuppressionKeysSnoc(nfos, p, date);
      AdditionsSlots(found, index, prev.slots, st.slots, Additions(init, index, p, date), Additions(nfos, index, p, date), last,
        Overrides(last, p, date) && KeyOf(last) !in index);
      forall i | 0 <= i < |found|
        ensures st.slots[i] == SlotAfterNFOs(found, nfos, p, date, i)
      {
        var k := KeyOf(found[i]);
        if Overrides(last, p, date) && KeyOf(last) in index && index[KeyOf(last)] == i {
          assert KeyOf(found[i]) == KeyOf(last);
        }
      }
    }
  }

  lemma SuppressionKeysSnoc(nfos: seq<NDFMainValue>, p: FareSearchParams, date: Date)
    requires nfos != []
    ensures var last := nfos[|nfos| - 1];
      SuppressionKeys(nfos, p, date) ==
        SuppressionKeys(nfos[..|nfos| - 1], p, date)
        + (if Admits(last, p, date) && IsIndicated(last.suppressionMarker) then {KeyOf(last)} else {})
  {
    var init := nfos[..|nfos| - 1];
    assert forall i :: 0 <= i < |init| ==> init[i] == nfos[i];
  }

  /** The tail of appended records grows by the one appended, if any. */
  lemma AdditionsSlots(found: seq<NDFMainValue>, index: map<NDFFoundKey, nat>,
                       prev: seq<Option<NDFMainValue>>, now: seq<Option<NDFMainValue>>,
                       added: seq<NDFMainValue>, added': seq<NDFMainValue>, last: NDFMainValue, appended: bool)
    requires IndexIn(index, |found|)
    requires |prev| == |found| + |added| && prev[|found|..] == Wrap(added)
    requires appended ==> now == prev + [Some(last)] && added' == added + [last]
    requires !appended ==> |now| == |prev| && added' == added
                           && forall i :: |found| <= i < |now| ==> now[i] == prev[i]
    ensures |now| == |found| + |added'| && now[|found|..] == Wrap(added')
  {
    if appended {
      assert now[|found|..] == prev[|found|..] + [Some(last)];
    } else {
      assert now[|found|..] == prev[|found|..];
    }
  }

  // ---------------------------------------------------------------------
  // Stage 4: suppression

  /** Slot `i` is reached through the index by one of the suppressions. */
  predicate Erased(supp: set<NDFFoundKey>, index: map<NDFFoundKey, nat>, i: nat)
  {
    exists k :: k in supp && k in index && index[k] == i
  }

  /** The slots once every suppression has erased the record its key's
      index entry points at. */
  function Suppress(slots: seq<Option<NDFMainValue>>, supp: set<NDFFoundKey>, index: map<NDFFoundKey, nat>): (r: seq<Option<NDFMainValue>>)
    ensures |r| == |slots|
    ensures forall i :: 0 <= i < |slots| ==> r[i] == if Erased(supp, index, i) then None else slots[i]
  {
    seq(|slots|, i requires 0 <= i < |slots| => if Erased(supp, index, i) then None else slots[i])
  }

  /** The loop over the suppression set; the order of erasure does not matter. */
  method SuppressAll(slots0: seq<Option<NDFMainValue>>, supp: set<NDFFoundKey>, index: map<NDFFoundKey, nat>)
    returns (slots: seq<Option<NDFMainValue>>)
    requires IndexIn(index, |slots0|)
    ensures slots == Suppress(slots0, supp, index)
  {
    slots := slots0;
    var remaining := supp;
    ghost var done: set<NDFFoundKey> := {};
    while remaining != {}
      invariant remaining + done == supp && remaining !! done
      invariant slots == Suppress(slots0, done, index)
      decreases remaining
    {
      var s :| s in remaining;
      if s in index {
        slots := slots[index[s] := None];
      }
      ghost var done' := done + {s};
      forall i | 0 <= i < |slots0|
        ensures slots[i] == Suppress(slots0, done', index)[i]
      {
        if Erased(done', index, i) && !Erased(done, index, i) {
          assert s in index && index[s] == i;
        }
      }
      remaining := remaining - {s};
      done := done';
    }
  }

  // ---------------------------------------------------------------------
  // Stage 5: the results

  function ResultKey(flow: Flow, v: NDFMainValue): FoundNDFKey
  {
    FoundNDFKey(flow, v.route, v.railcard, v.ticket)
  }

  function ResultValue(v: NDFMainValue): FoundNDFValue
  {
    FoundNDFValue(v.adultFare, v.childFare, v.restrictionCode)
  }

  /** Every remaining record inserted with `map::insert`, in order. */
  function Emit(results: NDFResults, flow: Flow, slots: seq<Option<NDFMainValue>>): (r: NDFResults)
    requires Sorted(results, NDFKeyLess)
    ensures Sorted(r, NDFKeyLess)
  {
    NDFKeyLessIsOrder();
    if slots == [] then results
    else
      var prev := Emit(results, flow, slots[..|slots| - 1]);
      match slots[|slots| - 1]
      case None => prev
      case Some(v) => InsertIfAbsent(prev, NDFKeyLess, ResultKey(flow, v), ResultValue(v))
  }

  method EmitAll(results: NDFResults, flow: Flow, slots: seq<Option<NDFMainValue>>) returns (r: NDFResults)
    requires Sorted(results, NDFKeyLess)
    ensures r == Emit(results, flow, slots)
  {
    NDFKeyLessIsOrder();
    r := results;
    var i := 0;
    while i < |slots|
      invariant 0 <= i <= |slots|
      invariant r == Emit(results, flow, slots[..i])
    {
      assert slots[..i + 1][..i] == slots[..i];
      if slots[i].Some? {
        var v := slots[i].value;
        r := InsertIfAbsent(r, NDFKeyLess, ResultKey(flow, v), ResultValue(v));
      }
      i := i + 1;
    }
    assert slots[..i] == slots;
  }

  /** `map::insert` never overwrites: every result present before keeps its value. */
  lemma {:induction false} EmitKeepsExisting(results: NDFResults, flow: Flow, slots: seq<Option<NDFMainValue>>)
    requires Sorted(results, NDFKeyLess)
    ensures forall k :: k in Keys(results) ==> Lookup(Emit(results, flow, slots), k) == Lookup(results, k)
  {
    if slots != [] {
      EmitKeepsExisting(results, flow, slots[..|slots| - 1]);
      EmitKeys(results, flow, slots[..|slots| - 1]);
    }
  }

  /** The result keys of the records left in the slots. */
  function SlotKeys(flow: Flow, slots: seq<Option<NDFMainValue>>): set<FoundNDFKey>
  {
    set i | 0 <= i < |slots| && slots[i].Some? :: ResultKey(flow, slots[i].value)
  }

  lemma SlotKeysSnoc(flow: Flow, slots: seq<Option<NDFMainValue>>)
    requires slots != []
    ensures var last := slots[|slots| - 1];
      SlotKeys(flow, slots) == SlotKeys(flow, slots[..|slots| - 1]) + (if last.Some? then {ResultKey(flow, last.value)} else {})
  {
    var init := slots[..|slots| - 1];
    assert forall i :: 0 <= i < |init| ==> init[i] == slots[i];
  }

  /** The keys after emission: those before, plus the key of every remaining record. */
  lemma {:induction false} EmitKeys(results: NDFResults, flow: Flow, slots: seq<Option<NDFMainValue>>)
    requires Sorted(results, NDFKeyLess)
    ensures Keys(Emit(results, flow, slots)) == Keys(results) + SlotKeys(flow, slots)
  {
    if slots != [] {
      EmitKeys(results, flow, slots[..|slots| - 1]);
      SlotKeysSnoc(flow, slots);
    }
  }

  /** Slot `i` is the first slot whose record has result key `k`. */
  predicate FirstSlotOf(flow: Flow, slots: seq<Option<NDFMainValue>>, k: FoundNDFKey, i: int)
  {
    && 0 <= i < |slots| && slots[i].Some? && ResultKey(flow, slots[i].value) == k
    && forall j :: 0 <= j < i ==> !(slots[j].Some? && ResultKey(flow, slots[j].value) == k)
  }

  /** A key the results did not hold receives the prices of the first
      remaining record with that key: `map::insert` keeps the first. */
  lemma {:induction false} EmitNewValue(results: NDFResults, flow: Flow, slots: seq<Option<NDFMainValue>>, k: FoundNDFKey)
    requires Sorted(results, NDFKeyLess)
    requires k in SlotKeys(flow, slots) && k !in Keys(results)
    ensures exists i :: FirstSlotOf(flow, slots, k, i) && Lookup(Emit(results, flow, slots), k) == Some(ResultValue(slots[i].value))
  {
    NDFKeyLessIsOrder();
    var n := |slots| - 1;
    var init, last := slots[..n], slots[n];
    var prev := Emit(results, flow, init);
    assert forall j :: 0 <= j < n ==> init[j] == slots[j];
    SlotKeysSnoc(flow, slots);
    EmitKeys(results, flow, init);
    if k in SlotKeys(flow, init) {
      EmitNewValue(results, flow, init, k);
      var i :| FirstSlotOf(flow, init, k, i) && Lookup(prev, k) == Some(ResultValue(init[i].value));
      assert FirstSlotOf(flow, slots, k, i);
    } else {
      forall j | 0 <= j < n
        ensures !(slots[j].Some? && ResultKey(flow, slots[j].value) == k)
      {
        assert slots[j] == init[j];
      }
      assert FirstSlotOf(flow, slots, k, n);
    }
  }

  // ---------------------------------------------------------------------
  // The whole operation

  /** `foundNDFs` once suppressions are applied. */
  function FinalSlots(t: Tables, flow: Flow, p: FareSearchParams, useReturnDate: bool): seq<Option<NDFMainValue>>
  {
    var date := SearchDate(p, useReturnDate);
    var found := Admitted(EqualRange(t.ndfMain, flow), p, date);
    var index := FirstIndex(found);
    var st := ApplyNFOs(Found(Wrap(found), {}), EqualRange(t.nfoMain, flow), index, p, date);
    Suppress(st.slots, st.suppressions, index)
  }

  function ProcessNDFsOf(results: NDFResults, t: Tables, flow: Flow, p: FareSearchParams, useReturnDate: bool): (r: NDFResults)
    requires Sorted(results, NDFKeyLess)
    ensures Sorted(r, NDFKeyLess)
  {
    Emit(results, flow, FinalSlots(t, flow, p, useReturnDate))
  }

  /** `ProcessNDFs`. */
  method ProcessNDFs(results: NDFResults, t: Tables, flow: Flow, p: FareSearchParams, useReturnDate: bool)
    returns (r: NDFResults)
    requires Sorted(results, NDFKeyLess)
    ensures r == ProcessNDFsOf(results, t, flow, p, useReturnDate)
    ensures Sorted(r, NDFKeyLess)
  {
    var searchDate := if useReturnDate then p.returnDate else p.travelDate;
    var foundNDFs := AdmitNDFs(EqualRange(t.ndfMain, flow), p, searchDate);
    var foundMapIndex := BuildIndex(foundNDFs);
    var st := ApplyNFORecords(Found(Wrap(foundNDFs), {}), EqualRange(t.nfoMain, flow), foundMapIndex, p, searchDate);
    var slots := SuppressAll(st.slots, st.suppressions, foundMapIndex);
    r := EmitAll(results, flow, slots);
  }

  // ---------------------------------------------------------------------
  // What the merge promises

  /** An NFO appended as a new record is never suppressed: suppressions
      reach only records through the index, which holds NDFs alone. */
  lemma NFOAdditionsNeverSuppressed(t: Tables, flow: Flow, p: FareSearchParams, useReturnDate: bool, nfo: NDFMainValue)
    requires var date := SearchDate(p, useReturnDate);
      nfo in Additions(EqualRange(t.nfoMain, flow), FirstIndex(Admitted(EqualRange(t.ndfMain, flow), p, date)), p, date)
    ensures Some(nfo) in FinalSlots(t, flow, p, useReturnDate)
  {
    var date := SearchDate(p, useReturnDate);
    var found := Admitted(EqualRange(t.ndfMain, flow), p, date);
    var nfos := EqualRange(t.nfoMain, flow);
    var index := FirstIndex(found);
    var st := ApplyNFOs(Found(Wrap(found), {}), nfos, index, p, date);
    assert FinalSlots(t, flow, p, useReturnDate) == Suppress(st.slots, st.suppressions, index);
    ApplyNFOsShape(found, nfos, p, date);
    AdditionSlot(found, index, st.slots, st.suppressions, Additions(nfos, index, p, date), nfo);
  }

  /** A record appended after the found records survives suppression. */
  lemma AdditionSlot(found: seq<NDFMainValue>, index: map<NDFFoundKey, nat>, slots: seq<Option<NDFMainValue>>,
                     supp: set<NDFFoundKey>, added: seq<NDFMainValue>, nfo: NDFMainValue)
    requires IndexIn(index, |found|)
    requires |slots| == |found| + |added| && slots[|found|..] == Wrap(added)
    requires nfo in added
    ensures Some(nfo) in Suppress(slots, supp, index)
  {
    var j :| 0 <= j < |added| && added[j] == nfo;
    var i := |found| + j;
    assert slots[i] == slots[|found|..][j];
    assert !Erased(supp, index, i);
    assert Suppress(slots, supp, index)[i] == Some(nfo);
  }

  /** An admitted suppression erases the record its key's index entry
      points at, even when an NFO has already overridden that record. */
  lemma SuppressionWinsOverOverride(t: Tables, flow: Flow, p: FareSearchParams, useReturnDate: bool, nfo: NDFMainValue)
    requires var date := SearchDate(p, useReturnDate);
      && nfo in EqualRange(t.nfoMain, flow) && Admits(nfo, p, date) && IsIndicated(nfo.suppressionMarker)
      && KeyOf(nfo) in FirstIndex(Admitted(EqualRange(t.ndfMain, flow), p, date))
    ensures var index := FirstIndex(Admitted(EqualRange(t.ndfMain, flow), p, SearchDate(p, useReturnDate)));
      FinalSlots(t, flow, p, useReturnDate)[index[KeyOf(nfo)]] == None
  {
    var date := SearchDate(p, useReturnDate);
    var found := Admitted(EqualRange(t.ndfMain, flow), p, date);
    var nfos := EqualRange(t.nfoMain, flow);
    var index := FirstIndex(found);
    ApplyNFOsShape(found, nfos, p, date);
    var i :| 0 <= i < |nfos| && nfos[i] == nfo;
    assert KeyOf(nfo) in SuppressionKeys(nfos, p, date);
  }

  /** Every record the merge can emit passed the admission conditions and
      is an NDF of the flow or a non-suppression NFO of the flow. */
  lemma FinalSlotsAdmitted(t: Tables, flow: Flow, p: FareSearchParams, useReturnDate: bool)
    ensures var date := SearchDate(p, useReturnDate);
      var slots := FinalSlots(t, flow, p, useReturnDate);
      forall i :: 0 <= i < |slots| && slots[i].Some? ==>
        && Admits(slots[i].value, p, date)
        && ((flow, slots[i].value) in t.ndfMain
            || ((flow, slots[i].value) in t.nfoMain && !IsIndicated(slots[i].value.suppressionMarker)))
  {
    var date := SearchDate(p, useReturnDate);
    var found := Admitted(EqualRange(t.ndfMain, flow), p, date);
    var nfos := EqualRange(t.nfoMain, flow);
    var index := FirstIndex(found);
    var st := ApplyNFOs(Found(Wrap(found), {}), nfos, index, p, date);
    ApplyNFOsShape(found, nfos, p, date);
    var slots := FinalSlots(t, flow, p, useReturnDate);
    forall i | 0 <= i < |slots| && slots[i].Some?
      ensures Admits(slots[i].value, p, date)
      ensures (flow, slots[i].value) in t.ndfMain
              || ((flow, slots[i].value) in t.nfoMain && !IsIndicated(slots[i].value.suppressionMarker))
    {
      assert slots[i] == st.slots[i];
      if i < |found| {
        var k := KeyOf(found[i]);
        LastOverrideIsOverride(nfos, k, p, date);
      } else {
        var added := Additions(nfos, index, p, date);
        assert st.slots[i] == st.slots[|found|..][i - |found|];
        AdditionsAreOverrides(nfos, index, p, date);
        assert added[i - |found|] in added;
      }
    }
  }

  lemma {:induction false} LastOverrideIsOverride(nfos: seq<NDFMainValue>, k: NDFFoundKey, p: FareSearchParams, date: Date)
    ensures LastOverride(nfos, k, p, date).Some? ==>
      var v := LastOverride(nfos, k, p, date).value;
      v in nfos && Overrides(v, p, date) && KeyOf(v) == k
  {
    if nfos != [] {
      LastOverrideIsOverride(nfos[..|nfos| - 1], k, p, date);
    }
  }

  lemma {:induction false} AdditionsAreOverrides(nfos: seq<NDFMainValue>, index: map<NDFFoundKey, nat>, p: FareSearchParams, date: Date)
    ensures forall v :: v in Additions(nfos, index, p, date) ==> v in nfos && Overrides(v, p, date) && KeyOf(v) !in index
  {
    if nfos != [] {
      AdditionsAreOverrides(nfos[..|nfos| - 1], index, p, date);
    }
  }

  /** The results gain exactly the keys of the records that survive, keep
      every value they already held, and give a new key the prices of the
      first surviving record with it. */
  lemma ProcessNDFsResults(results: NDFResults, t: Tables, flow: Flow, p: FareSearchParams, useReturnDate: bool)
    requires Sorted(results, NDFKeyLess)
    ensures var slots := FinalSlots(t, flow, p, useReturnDate);
      var r := ProcessNDFsOf(results, t, flow, p, useReturnDate);
      && Keys(r) == Keys(results) + SlotKeys(flow, slots)
      && (forall k :: k in Keys(results) ==> Lookup(r, k) == Lookup(results, k))
      && (forall k :: k in SlotKeys(flow, slots) && k !in Keys(results) ==>
            exists i :: FirstSlotOf(flow, slots, k, i) && Lookup(r, k) == Some(ResultValue(slots[i].value)))
  {
    var slots := FinalSlots(t, flow, p, useReturnDate);
    EmitKeys(results, flow, slots);
    EmitKeepsExisting(results, flow, slots);
    forall k | k in SlotKeys(flow, slots) && k !in Keys(results)
      ensures exists i :: FirstSlotOf(flow, slots, k, i)
                && Lookup(ProcessNDFsOf(results, t, flow, p, useReturnDate), k) == Some(ResultValue(slots[i].value))
    {
      EmitNewValue(results, flow, slots, k);
    }
  }
}
