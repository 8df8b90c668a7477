/** The records of the RJIS fares feed (RSPS5045) as the program keeps them,
    their fixed-offset decoders (`Set`) and the text encoders (`operator<<`)
    used to write the filtered per-station files. Only the fields the program
    reads are kept. */
module RJISTypes {
  import opened Wrappers
  import opened Text
  import opened RJISDate
  import opened Codes

  /** `Fare::Set`: the 8 characters at `offset` read as a number of pence. */
  function DecodeFare(s: string, offset: nat): int
    requires offset + 8 <= |s|
  {
    DecimalValue(s[offset..offset + 8])
  }

  /** `Indicator::IsIndicated`: the marker character is 'Y'. */
  predicate IsIndicated(c: char) { c == 'Y' }

  // ---------------------------------------------------------------------
  // NDF / NFO records (non-derivable fares and their overrides)

  datatype NDFMainValue = NDFMainValue(
    route: RouteCode,
    railcard: RailcardCode,
    ticket: TicketCode,
    ndRecordType: char,
    seqDates: Triple,
    suppressionMarker: char,
    adultFare: int,
    childFare: int,
    restrictionCode: RestrictionCode,
    composite: char,
    crossLondon: char,
    privateSettlement: char)

  /** Length of the value part of an NDF or NFO record. */
  const NDFValueLength := 58

  /** `NDFMainValue::Set`. */
  function DecodeNDF(s: string, offset: nat): NDFMainValue
    requires offset + NDFValueLength <= |s|
  {
    NDFMainValue(
      Field(s, offset, 5), Field(s, offset + 5, 3), Field(s, offset + 8, 3), s[offset + 11],
      DecodeTriple(s, offset + 12), s[offset + 36],
      DecodeFare(s, offset + 37), DecodeFare(s, offset + 45),
      Field(s, offset + 53, 2), s[offset + 55], s[offset + 56], s[offset + 57])
  }

  /** `operator<<(ostream&, NDFMainValue)`: a suppression writes 21 spaces in
      place of the fares and flags; otherwise the composite flag is written as 'Y'. */
  function EncodeNDF(v: NDFMainValue): string
  {
    NDFHead(v) + NDFTail(v)
  }

  /** The codes, record type, dates and suppression marker: the first 37 characters. */
  function NDFHead(v: NDFMainValue): string
  {
    v.route + v.railcard + v.ticket + [v.ndRecordType] + EncodeTriple(v.seqDates) + [v.suppressionMarker]
  }

  /** The fares and flags, or blanks after a suppression marker. */
  function NDFTail(v: NDFMainValue): string
  {
    if IsIndicated(v.suppressionMarker) then Blanks(21)
    else (ZeroPadded(v.adultFare, 8) + ZeroPadded(v.childFare, 8) + v.restrictionCode
          + "Y" + [v.crossLondon] + [v.privateSettlement])
  }

  function Blanks(n: nat): (r: string)
    ensures |r| == n && forall i :: 0 <= i < n ==> r[i] == ' '
  {
    Repeat(' ', n)
  }

  /** Field widths as the feed defines them and values the text can hold. */
  predicate NDFWritable(v: NDFMainValue)
  {
    |v.route| == 5 && |v.railcard| == 3 && |v.ticket| == 3 && |v.restrictionCode| == 2
    && Writable(v.seqDates.end) && Writable(v.seqDates.start) && Writable(v.seqDates.quote)
    && 0 <= v.adultFare < Pow10(8) && 0 <= v.childFare < Pow10(8)
  }

  lemma NDFHeadLength(v: NDFMainValue)
    requires NDFWritable(v)
    ensures |NDFHead(v)| == 37
  {
    TripleLength(v.seqDates);
  }

  /** A suppression NFO is written with blanks after its marker. */
  lemma NDFEncodeSuppressed(v: NDFMainValue)
    requires NDFWritable(v) && IsIndicated(v.suppressionMarker)
    ensures |EncodeNDF(v)| == NDFValueLength
    ensures forall i :: 37 <= i < NDFValueLength ==> EncodeNDF(v)[i] == ' '
  {
    NDFHeadLength(v);
  }

  /** A record that is not a suppression, whose composite flag is 'Y' (as
      every stored NDF's is) reads back from its text unchanged. */
  lemma NDFRoundTrip(v: NDFMainValue)
    requires NDFWritable(v) && !IsIndicated(v.suppressionMarker) && v.composite == 'Y'
    ensures |EncodeNDF(v)| == NDFValueLength
    ensures DecodeNDF(EncodeNDF(v), 0) == v
  {
    var t, a, c := v.seqDates, v.adultFare, v.childFare;
    EncodedTripleRoundTrip(t);
    ZeroPaddedRoundTrip(a, 8);
    ZeroPaddedRoundTrip(c, 8);
    NDFDecodeOfEncode(v);
  }

  /** A writable triple is written in 24 characters that read back as the same triple. */
  lemma EncodedTripleRoundTrip(t: Triple)
    requires Writable(t.end) && Writable(t.start) && Writable(t.quote)
    ensures |EncodeTriple(t)| == 24
    ensures DecodeTriple(EncodeTriple(t), 0) == t
  {
    var e, st, q := t.end, t.start, t.quote;
    DateRoundTrip(e);
    DateRoundTrip(st);
    DateRoundTrip(q);
    TripleOfDates(EncodeDate(e), EncodeDate(st), EncodeDate(q));
  }

  lemma TripleOfDates(e: string, st: string, q: string)
    requires |e| == 8 && |st| == 8 && |q| == 8
    ensures |e + st + q| == 24
    ensures DecodeTriple(e + st + q, 0) == Triple(DecodeDate(e, 0), DecodeDate(st, 0), DecodeDate(q, 0))
  {
    var s := e + st + q;
    assert s[0..24] == s;
    DecodeTripleFields(s, 0, e, st, q);
  }

  /** A writable range is written in 16 characters that read back as the same range. */
  lemma EncodedRangeRoundTrip(r: Range)
    requires Writable(r.start) && Writable(r.end)
    ensures |EncodeRange(r)| == 16
    ensures DecodeRange(EncodeRange(r), 0, false) == r
  {
    var e, st := r.end, r.start;
    DateRoundTrip(e);
    DateRoundTrip(st);
    RangeOfDates(EncodeDate(e), EncodeDate(st));
  }

  lemma RangeOfDates(e: string, st: string)
    requires |e| == 8 && |st| == 8
    ensures |e + st| == 16
    ensures DecodeRange(e + st, 0, false) == Range(DecodeDate(st, 0), DecodeDate(e, 0))
  {
    var s := e + st;
    assert s[0..16] == s;
    DecodeRangeFields(s, 0, e, st);
  }

  lemma NDFDecodeOfEncode(v: NDFMainValue)
    requires NDFWritable(v) && !IsIndicated(v.suppressionMarker)
    requires |EncodeTriple(v.seqDates)| == 24 && |ZeroPadded(v.adultFare, 8)| == 8 && |ZeroPadded(v.childFare, 8)| == 8
    ensures |EncodeNDF(v)| == NDFValueLength
    ensures DecodeNDF(EncodeNDF(v), 0) == NDFMainValue(v.route, v.railcard, v.ticket, v.ndRecordType,
      DecodeTriple(EncodeTriple(v.seqDates), 0), v.suppressionMarker,
      DecimalValue(ZeroPadded(v.adultFare, 8)), DecimalValue(ZeroPadded(v.childFare, 8)),
      v.restrictionCode, 'Y', v.crossLondon, v.privateSettlement)
  {
    NDFShape(v);
    NDFFields(v.route, v.railcard, v.ticket, v.ndRecordType, EncodeTriple(v.seqDates), v.suppressionMarker,
      ZeroPadded(v.adultFare, 8), ZeroPadded(v.childFare, 8), v.restrictionCode, v.crossLondon, v.privateSettlement);
  }

  lemma NDFShape(v: NDFMainValue)
    requires !IsIndicated(v.suppressionMarker)
    ensures EncodeNDF(v) == v.route + v.railcard + v.ticket + [v.ndRecordType] + EncodeTriple(v.seqDates) + [v.suppressionMarker]
      + (ZeroPadded(v.adultFare, 8) + ZeroPadded(v.childFare, 8) + v.restrictionCode + "Y" + [v.crossLondon] + [v.privateSettlement])
  {
  }

  lemma NDFFields(route: string, rc: string, tc: string, ty: char, dates: string, sm: char,
                  adult: string, child: string, res: string, cl: char, ps: char)
    requires |route| == 5 && |rc| == 3 && |tc| == 3 && |dates| == 24 && |adult| == 8 && |child| == 8 && |res| == 2
    ensures var s := route + rc + tc + [ty] + dates + [sm] + (adult + child + res + "Y" + [cl] + [ps]);
      |s| == NDFValueLength &&
      DecodeNDF(s, 0) == NDFMainValue(route, rc, tc, ty, DecodeTriple(dates, 0), sm,
        DecimalValue(adult), DecimalValue(child), res, 'Y', cl, ps)
  {
    var s := route + rc + tc + [ty] + dates + [sm] + (adult + child + res + "Y" + [cl] + [ps]);
    assert s[0..5] == route && s[5..8] == rc && s[8..11] == tc && s[11] == ty;
    assert s[12..36] == dates && s[36] == sm;
    assert s[37..45] == adult && s[45..53] == child && s[53..55] == res;
    assert s[55] == 'Y' && s[56] == cl && s[57] == ps;
    DecodeTripleShift(s, 12, dates);
  }

  lemma DecodeTripleShift(s: string, offset: nat, w: string)
    requires offset + 24 <= |s| && s[offset..offset + 24] == w
    ensures DecodeTriple(s, offset) == DecodeTriple(w, 0)
  {
    DecodeDateShift(s, offset);
    DecodeDateShift(s, offset + 8);
    DecodeDateShift(s, offset + 16);
    DecodeDateShift(w, 0);
    DecodeDateShift(w, 8);
    DecodeDateShift(w, 16);
    SliceOfSlice(s, offset, offset + 24, 0, 8);
    SliceOfSlice(s, offset, offset + 24, 8, 16);
    SliceOfSlice(s, offset, offset + 24, 16, 24);
  }

  // ---------------------------------------------------------------------
  // FFL flow records (RF) and fare records (RT)

  datatype FFLFlowMainValue = FFLFlowMainValue(
    route: RouteCode,
    daterange: Range,
    toc: TOCCode,
    direction: char,
    crossLondon: int,
    nsDiscInd: int,
    flowid: int)
  {
    /** Standard rail (0) or standard private (2) discounting applies. */
    predicate IsStandardDiscount()
    {
      nsDiscInd == 0 || nsDiscInd == 2
    }
  }

  /** Length of the value part of a flow record. */
  const FlowValueLength := 39

  /** `FFLFlowMainValue::Set`, as a value: the fields at their offsets and the
      flowid accumulated from the 7 characters at +32..+38. */
  function DecodeFlow(s: string, offset: nat): FFLFlowMainValue
    requires offset + FlowValueLength <= |s|
  {
    FFLFlowMainValue(Field(s, offset, 5), DecodeRange(s, offset + 10, false), Field(s, offset + 26, 3),
      s[offset + 9], DigitValue(s[offset + 29]), DigitValue(s[offset + 30]),
      DecimalValue(s[offset + 32..offset + 39]))
  }

  /** `FFLFlowMainValue::Set` with its digit loop; `flowid_` starts at its
      member initialiser, 0. */
  method SetFlow(s: string, offset: nat) returns (v: FFLFlowMainValue)
    requires offset + FlowValueLength <= |s|
    ensures v.route == s[offset..offset + 5] && v.toc == s[offset + 26..offset + 29]
    ensures v.daterange == DecodeRange(s, offset + 10, false)
    ensures v.direction == s[offset + 9]
    ensures v.crossLondon == s[offset + 29] as int - '0' as int
    ensures v.nsDiscInd == s[offset + 30] as int - '0' as int
    ensures v.flowid == DecimalValue(s[offset + 32..offset + 39])
    ensures v == DecodeFlow(s, offset)
  {
    var flowid := 0;
    var i := 0;
    while i < 7
      invariant 0 <= i <= 7
      invariant flowid == DecimalValue(s[offset + 32..offset + 32 + i])
    {
      DecimalValueAppend(s[offset + 32..offset + 32 + i], s[offset + 32 + i]);
      assert s[offset + 32..offset + 32 + i + 1] == s[offset + 32..offset + 32 + i] + [s[offset + 32 + i]];
      flowid := flowid * 10 + DigitValue(s[i + offset + 32]);
      i := i + 1;
    }
    v := FFLFlowMainValue(Field(s, offset, 5), DecodeRange(s, offset + 10, false), Field(s, offset + 26, 3),
      s[offset + 9], DigitValue(s[offset + 29]), DigitValue(s[offset + 30]), flowid);
  }

  /** `operator<<(ostream&, FFLFlowMainValue)`: status "000", usage 'A', the
      indicators unpadded, publication 'Y' and a zero-padded 7-digit flowid. */
  function EncodeFlow(v: FFLFlowMainValue): string
  {
    v.route + "000A" + [v.direction] + EncodeRange(v.daterange) + v.toc
    + FormatInt(v.crossLondon) + FormatInt(v.nsDiscInd) + "Y" + ZeroPadded(v.flowid, 7)
  }

  predicate FlowWritable(v: FFLFlowMainValue)
  {
    |v.route| == 5 && |v.toc| == 3 && Writable(v.daterange.start) && Writable(v.daterange.end)
    && 0 <= v.crossLondon <= 9 && 0 <= v.nsDiscInd <= 9 && 0 <= v.flowid < Pow10(7)
  }

  lemma FlowFields(route: string, dir: char, rng: string, toc: string, cl: char, ns: char, fid: string)
    requires |route| == 5 && |rng| == 16 && |toc| == 3 && |fid| == 7
    ensures var s := route + "000A" + [dir] + rng + toc + [cl] + [ns] + "Y" + fid;
      |s| == FlowValueLength &&
      DecodeFlow(s, 0) == FFLFlowMainValue(route, DecodeRange(rng, 0, false), toc, dir,
        DigitValue(cl), DigitValue(ns), DecimalValue(fid))
  {
    var s := route + "000A" + [dir] + rng + toc + [cl] + [ns] + "Y" + fid;
    assert s[0..5] == route && s[9] == dir && s[10..26] == rng && s[26..29] == toc;
    assert s[29] == cl && s[30] == ns && s[32..39] == fid;
    DecodeRangeShift(s, 10, rng);
  }

  lemma DecodeRangeShift(s: string, offset: nat, w: string)
    requires offset + 16 <= |s| && s[offset..offset + 16] == w
    ensures DecodeRange(s, offset, false) == DecodeRange(w, 0, false)
  {
    DecodeDateShift(s, offset);
    DecodeDateShift(s, offset + 8);
    DecodeDateShift(w, 0);
    DecodeDateShift(w, 8);
    SliceOfSlice(s, offset, offset + 16, 0, 8);
    SliceOfSlice(s, offset, offset + 16, 8, 16);
  }

  /** Writing a flow value and reading it back at the same offsets gives the
      same value, for single-digit indicators and a flowid below 10^7. */
  lemma FlowRoundTrip(v: FFLFlowMainValue)
    requires FlowWritable(v)
    ensures |EncodeFlow(v)| == FlowValueLength
    ensures DecodeFlow(EncodeFlow(v), 0) == v
  {
    var r, f, cl, ns := v.daterange, v.flowid, v.crossLondon, v.nsDiscInd;
    EncodedRangeRoundTrip(r);
    ZeroPaddedRoundTrip(f, 7);
    FormatSingleDigit(cl);
    FormatSingleDigit(ns);
    FlowDecodeOfEncode(v);
  }

  lemma FlowDecodeOfEncode(v: FFLFlowMainValue)
    requires FlowWritable(v)
    requires |EncodeRange(v.daterange)| == 16 && |ZeroPadded(v.flowid, 7)| == 7
    requires FormatInt(v.crossLondon) == [DigitChar(v.crossLondon)] && FormatInt(v.nsDiscInd) == [DigitChar(v.nsDiscInd)]
    ensures |EncodeFlow(v)| == FlowValueLength
    ensures DecodeFlow(EncodeFlow(v), 0) == FFLFlowMainValue(v.route, DecodeRange(EncodeRange(v.daterange), 0, false),
      v.toc, v.direction, v.crossLondon, v.nsDiscInd, DecimalValue(ZeroPadded(v.flowid, 7)))
  {
    FlowFields(v.route, v.direction, EncodeRange(v.daterange), v.toc, DigitChar(v.crossLondon), DigitChar(v.nsDiscInd),
      ZeroPadded(v.flowid, 7));
  }

  /** The discount description `GetJSON` reports for an indicator; the
      standard kinds (those `IsStandardDiscount` accepts) are the ones named
      "standard ...". */
  function DiscountName(nsDiscInd: int): (r: string)
    ensures r == "" <==> !(0 <= nsDiscInd <= 3)
    ensures nsDiscInd == 0 || nsDiscInd == 2 ==> |r| >= 8 && r[..8] == "standard"
    ensures nsDiscInd == 1 || nsDiscInd == 3 ==> |r| >= 12 && r[..12] == "non-standard"
    ensures nsDiscInd == 2 || nsDiscInd == 3 ==> |r| >= 7 && r[|r| - 7..] == "private"
    ensures nsDiscInd == 0 || nsDiscInd == 1 ==> |r| >= 4 && r[|r| - 4..] == "rail"
  {
    if nsDiscInd == 0 then "standard rail"
    else if nsDiscInd == 1 then "non-standard rail"
    else if nsDiscInd == 2 then "standard private"
    else if nsDiscInd == 3 then "non-standard private"
    else ""
  }

  /** `FFLFlowMainValue::GetJSON`: the route, discount description and flowid as JSON members. */
  function GetJSON(v: FFLFlowMainValue): (r: string)
    ensures |r| >= 10 + |v.route| + |FormatInt(v.flowid)|
    ensures r[..10] == "\"route\": \"" && r[10..10 + |v.route|] == v.route
    ensures r[|r| - |FormatInt(v.flowid)|..] == FormatInt(v.flowid)
  {
    "\"route\": \"" + v.route + "\", \"discount\": \"" + DiscountName(v.nsDiscInd) + "\", \"flowid\": "
    + FormatInt(v.flowid)
  }

  datatype FFLFareMainValue = FFLFareMainValue(ticket: TicketCode, fare: int, rescode: RestrictionCode)

  /** `FFLFareMainValue::Set`: ticket(3), fare(8) and restriction code(2) at +0/+3/+11. */
  function DecodeFareRecord(s: string, offset: nat): (v: FFLFareMainValue)
    requires offset + 13 <= |s|
    ensures v.ticket == s[offset..offset + 3] && v.rescode == s[offset + 11..offset + 13]
    ensures v.fare == DecimalValue(s[offset + 3..offset + 11])
  {
    FFLFareMainValue(Field(s, offset, 3), DecodeFare(s, offset + 3), Field(s, offset + 11, 2))
  }

  /** `operator<<(ostream&, FFLFareMainValue)`. */
  function EncodeFareRecord(v: FFLFareMainValue): string
  {
    v.ticket + ZeroPadded(v.fare, 8) + v.rescode
  }

  lemma FareRecordFields(t: string, f: string, r: string)
    requires |t| == 3 && |f| == 8 && |r| == 2
    ensures DecodeFareRecord(t + f + r, 0) == FFLFareMainValue(t, DecimalValue(f), r)
  {
    var s := t + f + r;
    assert s[0..3] == t && s[3..11] == f && s[11..13] == r;
  }

  /** A fare record written and read back is unchanged. */
  lemma FareRecordRoundTrip(v: FFLFareMainValue)
    requires |v.ticket| == 3 && |v.rescode| == 2 && 0 <= v.fare < Pow10(8)
    ensures |EncodeFareRecord(v)| == 13
    ensures DecodeFareRecord(EncodeFareRecord(v), 0) == v
  {
    ZeroPaddedRoundTrip(v.fare, 8);
    FareRecordFields(v.ticket, ZeroPadded(v.fare, 8), v.rescode);
  }

  // ---------------------------------------------------------------------
  // Reference records

  /** The ticket type fields the fare engine reads. */
  datatype TicketTypeValue = TicketTypeValue(seqDates: Triple, ticketClass: int, ticketType: char,
                                             discountCategory: DiscountCategory)

  function DecodeTicketType(s: string, offset: nat): (v: TicketTypeValue)
    requires offset + 109 <= |s|
    ensures v.ticketType == s[offset + 40] && v.discountCategory == s[offset + 107..offset + 109]
  {
    TicketTypeValue(DecodeTriple(s, offset), DigitValue(s[offset + 39]), s[offset + 40], Field(s, offset + 107, 2))
  }

  /** The railcard fields the fare engine reads. */
  datatype RailcardValue = RailcardValue(seqDates: Triple, validityPeriod: string, lastValidDate: Date,
                                         adultStatus: StatusCode, childStatus: StatusCode)

  /** `RailcardValue::Set`: the last valid date is read only when the
      validity period is four spaces. */
  function DecodeRailcard(s: string, offset: nat): (v: RailcardValue)
    requires offset + 124 <= |s|
    ensures v.validityPeriod == s[offset + 99..offset + 103]
    ensures v.validityPeriod == "    " ==> v.lastValidDate == DecodeDate(s, offset + 103)
    ensures v.validityPeriod != "    " ==> v.lastValidDate == NoDate
    ensures v.adultStatus == s[offset + 115..offset + 118] && v.childStatus == s[offset + 118..offset + 121]
  {
    var vp := Field(s, offset + 99, 4);
    var last := if vp[0] == ' ' && vp[1] == ' ' && vp[2] == ' ' && vp[3] == ' ' then DecodeDate(s, offset + 103) else NoDate;
    assert vp == "    " <==> (vp[0] == ' ' && vp[1] == ' ' && vp[2] == ' ' && vp[3] == ' ');
    RailcardValue(DecodeTriple(s, offset), vp, last, Field(s, offset + 115, 3), Field(s, offset + 118, 3))
  }

  datatype SDiscountKey = SDiscountKey(statusCode: StatusCode, discountCategory: DiscountCategory)
  datatype SDiscountValue = SDiscountValue(endDate: Date, discountIndicator: char, percentage: int)

  function DecodeSDiscountKey(s: string, offset: nat): (k: SDiscountKey)
    requires offset + 13 <= |s|
    ensures k.statusCode == s[offset..offset + 3] && k.discountCategory == s[offset + 11..offset + 13]
  {
    SDiscountKey(Field(s, offset, 3), Field(s, offset + 11, 2))
  }

  /** `Percentage::Set` reads three digits: the discount in tenths of a percent. */
  function DecodeSDiscountValue(s: string, offset: nat): (v: SDiscountValue)
    requires offset + 14 <= |s|
    ensures v.discountIndicator == s[offset + 10] && v.percentage == DecimalValue(s[offset + 11..offset + 14])
  {
    SDiscountValue(DecodeDate(s, offset), s[offset + 10], DecimalValue(Field(s, offset + 11, 3)))
  }

  /** The location fields the station expansion and folder naming read. */
  datatype LocationLValue = LocationLValue(seqDates: Triple, crsCode: CRSCode, faregroup: NLC,
                                           county: string, zoneNLC: NLC, zoneNumber: char)

  function DecodeLocation(s: string, offset: nat): (v: LocationLValue)
    requires offset + 75 <= |s|
    ensures v.crsCode == s[offset + 47..offset + 50] && v.faregroup == s[offset + 60..offset + 64]
    ensures v.county == s[offset + 66..offset + 68] && v.zoneNLC == s[offset + 70..offset + 74]
    ensures v.zoneNumber == s[offset + 74]
  {
    LocationLValue(DecodeTriple(s, offset), Field(s, offset + 47, 3), Field(s, offset + 60, 4),
      Field(s, offset + 66, 2), Field(s, offset + 70, 4), s[offset + 74])
  }

  /** A non-standard discount record. */
  datatype NSDiscEntry = NSDiscEntry(
    originCode: NLC, destinationCode: NLC, route: RouteCode, railcard: RailcardCode, ticketCode: TicketCode,
    dates: Triple, useNLC: NLC,
    adultNoDis: char, adultAddon: string, adultRebook: char,
    childNoDis: char, childAddon: string, childRebook: char)

  function DecodeNSDisc(s: string, offset: nat): (v: NSDiscEntry)
    requires offset + 67 <= |s|
    ensures v.originCode == s[offset..offset + 4] && v.destinationCode == s[offset + 4..offset + 8]
    ensures v.route == s[offset + 8..offset + 13] && v.railcard == s[offset + 13..offset + 16]
    ensures v.ticketCode == s[offset + 16..offset + 19]
    ensures v.adultNoDis == s[offset + 47] && v.childNoDis == s[offset + 57]
  {
    NSDiscEntry(Field(s, offset, 4), Field(s, offset + 4, 4), Field(s, offset + 8, 5), Field(s, offset + 13, 3),
      Field(s, offset + 16, 3), DecodeTriple(s, offset + 19), Field(s, offset + 43, 4),
      s[offset + 47], Field(s, offset + 48, 8), s[offset + 56],
      s[offset + 57], Field(s, offset + 58, 8), s[offset + 66])
  }

  /** The railcard minimum fare record (RCM). */
  datatype RailcardMinKey = RailcardMinKey(railcard: RailcardCode, ticketCode: TicketCode)
  datatype RailcardMinValue = RailcardMinValue(dateRange: Range, fare: int)

  function DecodeRailcardMinKey(s: string, offset: nat): RailcardMinKey
    requires offset + 6 <= |s|
  {
    RailcardMinKey(Field(s, offset, 3), Field(s, offset + 3, 3))
  }

  function DecodeRailcardMinValue(s: string, offset: nat): RailcardMinValue
    requires offset + 24 <= |s|
  {
    RailcardMinValue(DecodeRange(s, offset, false), DecodeFare(s, offset + 8))
  }

  // ---------------------------------------------------------------------
  // Restriction records

  /** The time restriction record (TR, section 4.19.8 of RSPS5045). */
  datatype RestrictionsTR = RestrictionsTR(sequenceNumber: string, outRet: char, minutesFrom: int, minutesTo: int,
                                           adv: char, location: CRSCode, resType: char, trainType: char, minFare: char)

  /** `HHMM` as minutes: 600·H1 + 60·H2 + 10·M1 + M2. */
  function HHMMMinutes(s: string, at: nat): int
    requires at + 4 <= |s|
  {
    600 * DigitValue(s[at]) + 60 * DigitValue(s[at + 1]) + 10 * DigitValue(s[at + 2]) + DigitValue(s[at + 3])
  }

  /** The constructor's outcome: it throws unless the 8 time characters at +5..+12 are digits. */
  function DecodeTR(line: string, offset: nat): (r: Result<RestrictionsTR, string>)
    requires offset + 20 <= |line|
    ensures r.Ok? <==> AllDigits(line[offset + 5..offset + 13])
    ensures r.Ok? ==> r.value.minutesFrom == 60 * DecimalValue(line[offset + 5..offset + 7]) + DecimalValue(line[offset + 7..offset + 9])
    ensures r.Ok? ==> r.value.minutesTo == 60 * DecimalValue(line[offset + 9..offset + 11]) + DecimalValue(line[offset + 11..offset + 13])
    ensures r.Ok? ==> 0 <= r.value.minutesFrom <= 6039 && 0 <= r.value.minutesTo <= 6039
  {
    if !AllDigits(line[offset + 5..offset + 13]) then Err("bad character found in number in restriction TR record")
    else
      DigitsAt(line, offset + 5, 8);
      TwoDigits(line, offset + 5);
      TwoDigits(line, offset + 7);
      TwoDigits(line, offset + 9);
      TwoDigits(line, offset + 11);
      Ok(RestrictionsTR(Field(line, offset, 4), line[offset + 4], HHMMMinutes(line, offset + 5), HHMMMinutes(line, offset + 9),
        line[offset + 13], Field(line, offset + 14, 3), line[offset + 17], line[offset + 18], line[offset + 19]))
  }

  lemma DigitsAt(s: string, at: nat, n: nat)
    requires at + n <= |s| && AllDigits(s[at..at + n])
    ensures forall i :: at <= i < at + n ==> IsDigit(s[i])
  {
    forall i | at <= i < at + n ensures IsDigit(s[i]) {
      assert s[at..at + n][i - at] == s[i];
    }
  }

  lemma DigitsSlice(s: string, at: nat, n: nat)
    requires at + n <= |s| && forall i :: at <= i < at + n ==> IsDigit(s[i])
    ensures AllDigits(s[at..at + n])
  {
    var t := s[at..at + n];
    forall j | 0 <= j < n ensures IsDigit(t[j]) {
      assert t[j] == s[at + j];
    }
  }

  lemma TwoDigits(s: string, at: nat)
    requires at + 2 <= |s|
    ensures DecimalValue(s[at..at + 2]) == 10 * DigitValue(s[at]) + DigitValue(s[at + 1])
  {
    assert s[at..at + 2] == [s[at]] + [s[at + 1]];
    assert [s[at]] == [] + [s[at]];
    DecimalValueAppend([], s[at]);
    DecimalValueAppend([s[at]], s[at + 1]);
  }

  /** The TR constructor's digit check as the program runs it: a loop over
      the 8 characters that throws at the first non-digit. */
  method NewRestrictionsTR(line: string, offset: nat) returns (r: Result<RestrictionsTR, string>)
    requires offset + 20 <= |line|
    ensures r == DecodeTR(line, offset)
  {
    var i := 0;
    while i < 8
      invariant 0 <= i <= 8
      invariant forall j :: offset + 5 <= j < offset + 5 + i ==> IsDigit(line[j])
    {
      if !IsDigit(line[offset + 5 + i]) {
        assert line[offset + 5..offset + 13][i] == line[offset + 5 + i];
        return Err("bad character found in number in restriction TR record");
      }
      i := i + 1;
    }
    DigitsSlice(line, offset + 5, 8);
    r := DecodeTR(line, offset);
  }

  /** The holiday date record (HD): an MMDD-to-MMDD range given the year 2013
      until the year fix-up, and its day set kept as text. */
  datatype RestrictionsHD = RestrictionsHD(dateRange: Range, days: string)

  /** The year the HD loader gives every date before the fix-up. */
  const HDPlaceholderYear := 2013

  function DecodeHD(line: string, offset: nat): (r: Result<RestrictionsHD, string>)
    requires offset + 15 <= |line|
    ensures r.Ok? <==> AllDigits(line[offset..offset + 8])
    ensures r.Ok? ==> (r.value.dateRange.start ==
      Date(HDPlaceholderYear, DecimalValue(line[offset..offset + 2]), DecimalValue(line[offset + 2..offset + 4])))
    ensures r.Ok? ==> (r.value.dateRange.end ==
      Date(HDPlaceholderYear, DecimalValue(line[offset + 4..offset + 6]), DecimalValue(line[offset + 6..offset + 8])))
  {
    if !AllDigits(line[offset..offset + 8]) then Err("bad character found in date in restriction TR record")
    else
      TwoDigits(line, offset);
      TwoDigits(line, offset + 2);
      TwoDigits(line, offset + 4);
      TwoDigits(line, offset + 6);
      var mFrom := 10 * DigitValue(line[offset]) + DigitValue(line[offset + 1]);
      var dFrom := 10 * DigitValue(line[offset + 2]) + DigitValue(line[offset + 3]);
      var mTo := 10 * DigitValue(line[offset + 4]) + DigitValue(line[offset + 5]);
      var dTo := 10 * DigitValue(line[offset + 6]) + DigitValue(line[offset + 7]);
      Ok(RestrictionsHD(Range(Date(HDPlaceholderYear, mFrom, dFrom), Date(HDPlaceholderYear, mTo, dTo)),
        Field(line, offset + 8, 7)))
  }

  /** The HD constructor's digit check loop. */
  method NewRestrictionsHD(line: string, offset: nat) returns (r: Result<RestrictionsHD, string>)
    requires offset + 15 <= |line|
    ensures r == DecodeHD(line, offset)
  {
    var i := 0;
    while i < 8
      invariant 0 <= i <= 8
      invariant forall j :: offset <= j < offset + i ==> IsDigit(line[j])
    {
      if !IsDigit(line[offset + i]) {
        assert line[offset..offset + 8][i] == line[offset + i];
        return Err("bad character found in date in restriction TR record");
      }
      i := i + 1;
    }
    DigitsSlice(line, offset, 8);
    r := DecodeHD(line, offset);
  }

  /** The key of railcard restriction (RR) records, section 4.19.18 of
      RSPS5045: the current/future marker and the railcard code. */
  datatype RestrictionsRRKey = RestrictionsRRKey(cf: char, railcard: RailcardCode)

  function DecodeRRKey(line: string, offset: nat): (k: RestrictionsRRKey)
    requires offset + 4 <= |line|
    ensures k.cf == line[offset] && k.railcard == line[offset + 1..offset + 4]
  {
    RestrictionsRRKey(line[offset], Field(line, offset + 1, 3))
  }

  datatype RestrictionsRR = RestrictionsRR(sequenceNumber: string, ticketCode: TicketCode, routeCode: RouteCode,
                                           location: CRSCode, restrictionCode: RestrictionCode, totalBan: char)

  function DecodeRR(line: string, offset: nat): (v: RestrictionsRR)
    requires offset + 18 <= |line|
    ensures v.ticketCode == line[offset + 4..offset + 7] && v.routeCode == line[offset + 7..offset + 12]
    ensures v.restrictionCode == line[offset + 15..offset + 17] && v.totalBan == line[offset + 17]
  {
    RestrictionsRR(Field(line, offset, 4), Field(line, offset + 4, 3), Field(line, offset + 7, 5),
      Field(line, offset + 12, 3), Field(line, offset + 15, 2), line[offset + 17])
  }

  /** The key of TR and HD records: the current/future marker and the restriction code. */
  datatype RestrictionsKey = RestrictionsKey(cf: char, restrictionCode: RestrictionCode)
  {
    /** `CFMarker::IsFuture`: the record belongs to the future restriction set. */
    predicate IsFuture() { cf == 'F' }
  }

  function DecodeRestrictionsKey(line: string, offset: nat): (k: RestrictionsKey)
    requires offset + 3 <= |line|
    ensures k.cf == line[offset] && k.restrictionCode == line[offset + 1..offset + 3]
  {
    RestrictionsKey(line[offset], Field(line, offset + 1, 2))
  }

  /** The key of the standard discount file's S records. */
  datatype StatusKey = StatusKey(statusCode: StatusCode, endDate: Date)

  function DecodeStatusKey(s: string, offset: nat): (k: StatusKey)
    requires offset + 11 <= |s|
    ensures k.statusCode == s[offset..offset + 3] && k.endDate == DecodeDate(s, offset + 3)
  {
    StatusKey(Field(s, offset, 3), DecodeDate(s, offset + 3))
  }
}
