/** The RSPS5046 timetable types (`TTTypes.h`): minutes-from-midnight times,
    the BS record's running dates, one calling point of a train (`TrainCall`)
    decoded from an LO, LI or LT record, the CRS-to-CRS flow key of the
    timetable index, and the calling points of a planned journey. */
module TTTypes {
  import opened Wrappers
  import opened Text
  import opened Ordered
  import opened RJISDate
  import opened Codes

  /** `uint16_t`. */
  type Uint16 = x: int | 0 <= x < 0x1_0000

  /** The conversion of an integer to `uint16_t`: modulo 2^16, so -1 becomes 65535. */
  function ToUint16(x: int): (r: Uint16)
    ensures 0 <= x < 0x1_0000 ==> r == x
    ensures x == -1 ==> r == 0xFFFF
  {
    x % 0x1_0000
  }

  /** The conversion of an integer to `short`: into [-32768, 32767], modulo 2^16. */
  function ToShort(x: int): (r: int)
    ensures -0x8000 <= r < 0x8000
    ensures -0x8000 <= x < 0x8000 ==> r == x
    ensures (r - x) % 0x1_0000 == 0
  {
    (x + 0x8000) % 0x1_0000 - 0x8000
  }

  function Abs(x: int): nat { if x < 0 then -x else x }

  // ---------------------------------------------------------------------
  // Times

  /** C++ `int` division: the quotient truncated toward zero. */
  function TruncDiv(a: int, b: int): (q: int)
    requires b > 0
    ensures a >= 0 ==> q == a / b
  {
    if a >= 0 then a / b else -((-a) / b)
  }

  /** `GetTimeFromMinutes`: the hours (minutes / 60, truncated) and the
      remaining minutes, each written at least two wide with zero fill,
      separated by a colon. */
  function GetTimeFromMinutes(minutes: int): string
  {
    var hours := TruncDiv(minutes, 60);
    ClockText(hours, minutes - hours * 60)
  }

  /** Hours and minutes, each written `setw(2)` with zero fill, around a colon. */
  function ClockText(hours: int, rest: int): (r: string)
    ensures 0 <= hours < 100 && 0 <= rest < 100 ==>
      && |r| == 5 && r[2] == ':' && AllDigits(r[..2]) && AllDigits(r[3..])
      && DecimalValue(r[..2]) == hours && DecimalValue(r[3..]) == rest
  {
    PaddedPair(hours, rest);
    ZeroPadded(hours, 2) + ":" + ZeroPadded(rest, 2)
  }

  /** A time of day below 100 hours is written as `HH:MM` and reads back as
      the hours times 60 plus the minutes, with the minutes below 60. */
  lemma TimeOfDayReadsBack(minutes: int)
    requires 0 <= minutes < 6000
    ensures var r := GetTimeFromMinutes(minutes);
            |r| == 5 && r[2] == ':' && AllDigits(r[..2]) && AllDigits(r[3..])
            && DecimalValue(r[3..]) < 60
            && 60 * DecimalValue(r[..2]) + DecimalValue(r[3..]) == minutes
  {
    var hours := TruncDiv(minutes, 60);
    var rest := minutes - hours * 60;
    assert hours == minutes / 60;
    assert 0 <= rest < 60 && 0 <= hours < 100;
  }

  /** Two values below 100 written `setw(2)` with zero fill around a colon. */
  lemma PaddedPair(a: int, b: int)
    ensures 0 <= a < 100 && 0 <= b < 100 ==>
            var r := ZeroPadded(a, 2) + ":" + ZeroPadded(b, 2);
            |r| == 5 && r[2] == ':' && AllDigits(r[..2]) && AllDigits(r[3..])
            && DecimalValue(r[..2]) == a && DecimalValue(r[3..]) == b
  {
    if 0 <= a < 100 && 0 <= b < 100 {
      ZeroPaddedRoundTrip(a, 2);
      ZeroPaddedRoundTrip(b, 2);
      ColonJoin(ZeroPadded(a, 2), ZeroPadded(b, 2));
    }
  }

  lemma ColonJoin(x: string, y: string)
    requires |x| == 2 && |y| == 2
    ensures var r := x + ":" + y; |r| == 5 && r[2] == ':' && r[..2] == x && r[3..] == y
  {
    var r := x + ":" + y;
    assert r[..2] == x;
    assert r[3..] == y;
  }

  /** Two two-digit strings with the same value are the same string. */
  lemma TwoDigitsDetermined(a: string, b: string)
    requires |a| == 2 && |b| == 2 && AllDigits(a) && AllDigits(b)
    requires DecimalValue(a) == DecimalValue(b)
    ensures a == b
  {
    TwoDigitValue(a);
    TwoDigitValue(b);
    assert IsDigit(a[0]) && IsDigit(a[1]) && IsDigit(b[0]) && IsDigit(b[1]);
    assert a[0] == b[0];
  }

  /** The value of two characters: ten times the first plus the second. */
  lemma TwoDigitValue(s: string)
    requires |s| == 2
    ensures DecimalValue(s) == 10 * DigitValue(s[0]) + DigitValue(s[1])
    ensures AllDigits(s) ==> 0 <= DecimalValue(s) < 100
  {
    var init := s[..1];
    assert init[..0] == [] && init[0] == s[0];
    assert DecimalValue(init) == DigitValue(s[0]);
  }

  /** The `HHMM` time at `i`: `600a + 60b + 10c + d` over the four characters,
      stored in a `short`. For four digits it is the hours times 60 plus the
      minutes. */
  function HHMM(line: string, i: nat): (r: int)
    requires i + 4 <= |line|
    ensures AllDigits(line[i..i + 4]) ==>
              0 <= r <= 6039
              && r == 60 * DecimalValue(line[i..i + 2]) + DecimalValue(line[i + 2..i + 4])
  {
    var v := 600 * DigitValue(line[i]) + 60 * DigitValue(line[i + 1])
             + 10 * DigitValue(line[i + 2]) + DigitValue(line[i + 3]);
    if AllDigits(line[i..i + 4]) then
      var s := line[i..i + 4];
      assert IsDigit(s[0]) && IsDigit(s[1]) && IsDigit(s[2]) && IsDigit(s[3]);
      TwoDigitValue(line[i..i + 2]);
      TwoDigitValue(line[i + 2..i + 4]);
      ToShort(v)
    else
      ToShort(v)
  }

  /** A record time written as `HHMM` with MM below 60 is printed back by
      `GetTimeFromMinutes` as `HH:MM`. */
  lemma RecordTimeRoundTrip(line: string, i: nat)
    requires i + 4 <= |line| && AllDigits(line[i..i + 4])
    requires DecimalValue(line[i + 2..i + 4]) < 60
    ensures GetTimeFromMinutes(HHMM(line, i)) == line[i..i + 2] + ":" + line[i + 2..i + 4]
  {
    var hh, mm := line[i..i + 2], line[i + 2..i + 4];
    assert AllDigits(hh) && AllDigits(mm) by {
      assert forall k :: 0 <= k < 2 ==> hh[k] == line[i..i + 4][k] && mm[k] == line[i..i + 4][k + 2];
    }
    TwoDigitValue(hh);
    TimeFromDigits(HHMM(line, i), hh, mm);
  }

  /** The minutes `60 * HH + MM` are written back as `HH:MM`. */
  lemma TimeFromDigits(m: int, hh: string, mm: string)
    requires |hh| == 2 && |mm| == 2 && AllDigits(hh) && AllDigits(mm)
    requires 0 <= DecimalValue(hh) < 100 && 0 <= DecimalValue(mm) < 60
    requires m == 60 * DecimalValue(hh) + DecimalValue(mm)
    ensures GetTimeFromMinutes(m) == hh + ":" + mm
  {
    TimeOfDayReadsBack(m);
    TimeTextDetermined(GetTimeFromMinutes(m), hh, mm);
  }

  /** An `HH:MM` text is fixed by the minutes it stands for. */
  lemma TimeTextDetermined(r: string, hh: string, mm: string)
    requires |r| == 5 && r[2] == ':' && AllDigits(r[..2]) && AllDigits(r[3..]) && DecimalValue(r[3..]) < 60
    requires |hh| == 2 && |mm| == 2 && AllDigits(hh) && AllDigits(mm) && 0 <= DecimalValue(mm) < 60
    requires 60 * DecimalValue(r[..2]) + DecimalValue(r[3..]) == 60 * DecimalValue(hh) + DecimalValue(mm)
    ensures r == hh + ":" + mm
  {
    TwoDigitValue(r[3..]);
    HoursMinutesUnique(DecimalValue(r[..2]), DecimalValue(r[3..]), DecimalValue(hh), DecimalValue(mm));
    TwoDigitsDetermined(r[..2], hh);
    TwoDigitsDetermined(r[3..], mm);
    ColonSplit(r);
  }

  lemma HoursMinutesUnique(h1: int, m1: int, h2: int, m2: int)
    requires 0 <= m1 < 60 && 0 <= m2 < 60 && 60 * h1 + m1 == 60 * h2 + m2
    ensures h1 == h2 && m1 == m2
  {
  }

  lemma ColonSplit(r: string)
    requires |r| == 5 && r[2] == ':'
    ensures r == r[..2] + ":" + r[3..]
  {
    assert r == r[..2] + [r[2]] + r[3..];
  }

  // ---------------------------------------------------------------------
  // BS record dates

  /** `GetDateRangeFromBS`: the twelve characters from column 9 are the
      start and end dates as `YYMMDD`; years are in 2000-2099. A non-digit
      anywhere in them is an error. */
  function GetDateRangeFromBS(line: string): (r: Result<Range, string>)
    requires |line| >= 21
    ensures r.Ok? <==> AllDigits(line[9..21])
    ensures r.Ok? ==> 2000 <= r.value.start.year < 2100 && 2000 <= r.value.end.year < 2100
  {
    if !AllDigits(line[9..21]) then Err("invalid character in date")
    else
      assert forall k :: 9 <= k < 21 ==> IsDigit(line[k]) by {
        assert forall k :: 9 <= k < 21 ==> line[k] == line[9..21][k - 9];
      }
      Ok(Range(Date(2000 + TwoDigit(line, 9), TwoDigit(line, 11), TwoDigit(line, 13)),
               Date(2000 + TwoDigit(line, 15), TwoDigit(line, 17), TwoDigit(line, 19))))
  }

  /** `10 * (line[i] - '0') + line[i + 1] - '0'`. */
  function TwoDigit(line: string, i: nat): (r: int)
    requires i + 2 <= |line|
    ensures IsDigit(line[i]) && IsDigit(line[i + 1]) ==> 0 <= r < 100 && r == DecimalValue(line[i..i + 2])
  {
    TwoDigitValue(line[i..i + 2]);
    10 * DigitValue(line[i]) + DigitValue(line[i + 1])
  }

  /** A date of 2000-2099 as the BS record writes it: `YYMMDD`, each pair
      of digits reading back as its part of the date. */
  function EncodeBSDate(d: Date): (e: string)
    requires BSWritable(d)
    ensures |e| == 6 && AllDigits(e)
    ensures DecimalValue(e[..2]) == d.year - 2000
    ensures DecimalValue(e[2..4]) == d.month
    ensures DecimalValue(e[4..]) == d.day
  {
    var y, m, dd := TwoDigitField(d.year - 2000), TwoDigitField(d.month), TwoDigitField(d.day);
    ThreePairs(y + m + dd, y, m, dd);
    y + m + dd
  }

  predicate BSWritable(d: Date)
  {
    2000 <= d.year < 2100 && 0 <= d.month < 100 && 0 <= d.day < 100
  }

  /** A number below 100 written in two digits, with its value. */
  function TwoDigitField(n: nat): (s: string)
    requires n < 100
    ensures |s| == 2 && AllDigits(s) && DecimalValue(s) == n
  {
    ZeroPaddedRoundTrip(n, 2);
    ZeroPadded(n, 2)
  }

  lemma ThreePairs(e: string, y: string, m: string, d: string)
    requires e == y + m + d
    requires |y| == 2 && |m| == 2 && |d| == 2 && AllDigits(y) && AllDigits(m) && AllDigits(d)
    ensures |e| == 6 && AllDigits(e) && e[..2] == y && e[2..4] == m && e[4..] == d
    ensures DecimalValue(e[..2]) == DecimalValue(y) && DecimalValue(e[2..4]) == DecimalValue(m)
            && DecimalValue(e[4..]) == DecimalValue(d)
  {
    assert e[..2] == y && e[2..4] == m && e[4..] == d;
    assert forall k :: 0 <= k < 6 ==> e[k] == (if k < 2 then y[k] else if k < 4 then m[k - 2] else d[k - 4]);
  }

  /** The BS record's date columns read back as the range written into them. */
  lemma BSRangeRoundTrip(line: string, r: Range)
    requires |line| >= 21 && BSWritable(r.start) && BSWritable(r.end)
    requires line[9..21] == EncodeBSDate(r.start) + EncodeBSDate(r.end)
    ensures GetDateRangeFromBS(line) == Ok(r)
  {
    DecodeToRange(line, r.start, r.end, EncodeBSDate(r.start), EncodeBSDate(r.end));
  }

  /** Date columns holding the written fields decode to those dates. */
  lemma DecodeToRange(line: string, st: Date, en: Date, s: string, e: string)
    requires |line| >= 21 && |s| == 6 && |e| == 6 && AllDigits(s) && AllDigits(e)
    requires line[9..21] == s + e
    requires DecimalValue(s[..2]) == st.year - 2000 && DecimalValue(s[2..4]) == st.month && DecimalValue(s[4..]) == st.day
    requires DecimalValue(e[..2]) == en.year - 2000 && DecimalValue(e[2..4]) == en.month && DecimalValue(e[4..]) == en.day
    ensures GetDateRangeFromBS(line) == Ok(Range(st, en))
  {
    BSColumns(line, s, e);
  }

  /** Twelve digits in the date columns decode field by field. */
  lemma BSColumns(line: string, s: string, e: string)
    requires |line| >= 21 && |s| == 6 && |e| == 6 && AllDigits(s) && AllDigits(e)
    requires line[9..21] == s + e
    ensures GetDateRangeFromBS(line)
            == Ok(Range(Date(2000 + DecimalValue(s[..2]), DecimalValue(s[2..4]), DecimalValue(s[4..])),
                        Date(2000 + DecimalValue(e[..2]), DecimalValue(e[2..4]), DecimalValue(e[4..]))))
  {
    var w := line[9..21];
    assert AllDigits(w) by {
      assert forall k :: 0 <= k < 12 ==> w[k] == (if k < 6 then s[k] else e[k - 6]);
    }
    BSField(line, s + e, 0, s[..2]);
    BSField(line, s + e, 2, s[2..4]);
    BSField(line, s + e, 4, s[4..]);
    BSField(line, s + e, 6, e[..2]);
    BSField(line, s + e, 8, e[2..4]);
    BSField(line, s + e, 10, e[4..]);
  }

  /** The two columns at `9 + i` of the date field are the pair at `i`. */
  lemma BSField(line: string, w: string, i: nat, pair: string)
    requires |line| >= 21 && line[9..21] == w && i + 2 <= 12 && w[i..i + 2] == pair
    ensures line[9 + i..11 + i] == pair
  {
    SliceOfSlice(line, 9, 21, i, i + 2);
  }

  // ---------------------------------------------------------------------
  // Calling points

  /** The four times a calling point holds, -1 where none was read. */
  datatype CallTimes = CallTimes(arrival: int, depart: int, publicArrival: int, publicDepart: int)

  /** A record long enough for every column its record type reads. */
  predicate CallRecordReadable(line: string)
  {
    |line| >= 14
    && ((line[..2] == "LO" || line[..2] == "LT") ==> |line| >= 19)
    && (line[..2] == "LI" ==> |line| >= 33)
  }

  /** An optional time: -1 when its first column is a space. */
  function OptionalTime(line: string, i: nat): (r: int)
    requires i + 4 <= |line|
    ensures line[i] == ' ' ==> r == -1
    ensures line[i] != ' ' ==> r == HHMM(line, i)
  {
    if line[i] != ' ' then HHMM(line, i) else -1
  }

  /** The times an LO, LI or LT record gives: an origin (LO) has a departure
      only, an intermediate call (LI) both, a terminus (LT) an arrival only;
      a public time whose column is blank stays -1, and any other record
      type sets nothing. */
  function DecodeCallTimes(line: string): (t: CallTimes)
    requires CallRecordReadable(line)
    ensures line[..2] == "LO" ==> t.arrival == -1 && t.publicArrival == -1 && t.depart == HHMM(line, 10)
    ensures line[..2] == "LI" ==> t.arrival == HHMM(line, 10) && t.depart == HHMM(line, 15)
    ensures line[..2] == "LT" ==> t.depart == -1 && t.publicDepart == -1 && t.arrival == HHMM(line, 10)
    ensures line[..2] !in {"LO", "LI", "LT"} ==> t == CallTimes(-1, -1, -1, -1)
    ensures AllDigits(line[10..14]) && line[..2] in {"LO", "LT"} ==>
              0 <= (if line[..2] == "LO" then t.depart else t.arrival) <= 6039
  {
    var kind := line[..2];
    if kind == "LO" then
      CallTimes(-1, HHMM(line, 10), -1, OptionalTime(line, 15))
    else if kind == "LI" then
      CallTimes(HHMM(line, 10), HHMM(line, 15), OptionalTime(line, 25), OptionalTime(line, 29))
    else if kind == "LT" then
      CallTimes(HHMM(line, 10), -1, OptionalTime(line, 15), -1)
    else
      CallTimes(-1, -1, -1, -1)
  }

  /** The location's TIPLOC: the eight characters from column 2, cut to seven
      when column 7 is a digit (a suffix), trimmed. */
  function Tiploc(line: string): (r: string)
    requires |line| >= 10
    ensures |r| <= 8
    ensures IsDigit(line[7]) ==> |r| <= 7
  {
    if IsDigit(line[7]) then Trim(line[2..9]) else Trim(line[2..10])
  }

  /** The time shown for a call: the public time when there is one within
      ten minutes of the working time, otherwise the working time. */
  function PreferPublic(public: int, working: int): (r: int)
    ensures r == public || r == working
    ensures Abs(r - working) < 10
    ensures public == -1 ==> r == working
    ensures public != -1 && Abs(public - working) < 10 ==> r == public
  {
    if Abs(public - working) < 10 && public != -1 then public else working
  }

  /** `TrainCall`: one calling point of a train run. The `recordType` member
      is never assigned by the program (the constructor's assignments go to a
      local string of the same name), so it is not modelled. */
  class TrainCall {
    var arrivalMinutes: int
    var departMinutes: int
    var publicArrivalMinutes: int
    var publicDepartMinutes: int
    var crs: CRSCode

    function Times(): CallTimes
      reads this
    {
      CallTimes(arrivalMinutes, departMinutes, publicArrivalMinutes, publicDepartMinutes)
    }

    /** The constructor for a record whose columns 10-13 are digits (the
        program throws otherwise; see `NewTrainCall`). `crsOf` is the
        TIPLOC-to-CRS lookup, which is not part of this model. */
    constructor(line: string, crsOf: string -> CRSCode)
      requires CallRecordReadable(line) && AllDigits(line[10..14])
      ensures Times() == DecodeCallTimes(line)
      ensures crs == crsOf(Tiploc(line))
    {
      crs := crsOf(Tiploc(line));
      var t := DecodeCallTimes(line);
      arrivalMinutes := t.arrival;
      departMinutes := t.depart;
      publicArrivalMinutes := t.publicArrival;
      publicDepartMinutes := t.publicDepart;
    }

    /** `GetArrival`: the public arrival when present and within ten minutes
        of the working arrival, otherwise the working arrival, returned as
        `uint16_t`; a call with no arrival (an origin) gives 65535. */
    function GetArrival(): (r: Uint16)
      reads this
      ensures r == ToUint16(PreferPublic(publicArrivalMinutes, arrivalMinutes))
      ensures arrivalMinutes == -1 && publicArrivalMinutes == -1 ==> r == 0xFFFF
    {
      ToUint16(PreferPublic(publicArrivalMinutes, arrivalMinutes))
    }

    /** `GetDeparture`: the same rule for the departure. */
    function GetDeparture(): (r: Uint16)
      reads this
      ensures r == ToUint16(PreferPublic(publicDepartMinutes, departMinutes))
      ensures departMinutes == -1 && publicDepartMinutes == -1 ==> r == 0xFFFF
    {
      ToUint16(PreferPublic(publicDepartMinutes, departMinutes))
    }

    function GetPublicArrival(): (r: Uint16)
      reads this
      ensures publicArrivalMinutes == -1 ==> r == 0xFFFF
      ensures 0 <= publicArrivalMinutes ==> r == publicArrivalMinutes % 0x1_0000
    {
      ToUint16(publicArrivalMinutes)
    }

    function GetPublicDeparture(): (r: Uint16)
      reads this
      ensures publicDepartMinutes == -1 ==> r == 0xFFFF
      ensures 0 <= publicDepartMinutes ==> r == publicDepartMinutes % 0x1_0000
    {
      ToUint16(publicDepartMinutes)
    }
  }

  /** Building a `TrainCall` from a record: an error unless columns 10-13
      (the working time every record type has) are digits. */
  method NewTrainCall(line: string, crsOf: string -> CRSCode) returns (r: Result<TrainCall, string>)
    requires CallRecordReadable(line)
    ensures r.Err? <==> !AllDigits(line[10..14])
    ensures r.Ok? ==> fresh(r.value) && r.value.Times() == DecodeCallTimes(line)
                      && r.value.crs == crsOf(Tiploc(line))
  {
    if !AllDigits(line[10..14]) {
      return Err("invalid character in time");
    }
    var call := new TrainCall(line, crsOf);
    return Ok(call);
  }

  /** The arrival an origin record's call reports is 65535: it has no
      arrival time and -1 converts to `uint16_t` as 65535. */
  lemma OriginCallArrival(line: string)
    requires CallRecordReadable(line) && line[..2] == "LO"
    ensures ToUint16(PreferPublic(DecodeCallTimes(line).publicArrival, DecodeCallTimes(line).arrival)) == 0xFFFF
  {
  }

  /** An intermediate call whose public arrival is blank reports its working
      arrival, which for an `HHMM` with MM below 60 prints back as `HH:MM`. */
  lemma IntermediateCallArrival(line: string)
    requires CallRecordReadable(line) && line[..2] == "LI" && line[25] == ' '
    requires AllDigits(line[10..14]) && DecimalValue(line[12..14]) < 60
    ensures var t := DecodeCallTimes(line);
            var a := ToUint16(PreferPublic(t.publicArrival, t.arrival));
            a == HHMM(line, 10) && GetTimeFromMinutes(a) == line[10..12] + ":" + line[12..14]
  {
    RecordTimeRoundTrip(line, 10);
  }

  // ---------------------------------------------------------------------
  // Train runs

  /** `TrainRun`, as far as its calling points go: the running days and
      dates, identities and line number are set by the timetable loader,
      which is not part of this model. */
  class TrainRun {
    var callingAt: seq<TrainCall>

    constructor()
      ensures callingAt == []
    {
      callingAt := [];
    }

    method AddCall(call: TrainCall)
      modifies this
      ensures callingAt == old(callingAt) + [call]
    {
      callingAt := callingAt + [call];
    }

    method ClearCalls()
      modifies this
      ensures callingAt == []
    {
      callingAt := [];
    }
  }

  // ---------------------------------------------------------------------
  // CRS flows

  /** `CRSFlow`: the key of the timetable's flow index. */
  datatype CRSFlow = CRSFlow(crsOrigin: CRSCode, crsDestination: CRSCode)
  {
    /** `GetString`: the two codes concatenated. Two flows of three-letter
        codes have the same string only when they are the same flow. */
    function GetString(): (s: string)
      ensures |s| == |crsOrigin| + |crsDestination|
      ensures s[..|crsOrigin|] == crsOrigin && s[|crsOrigin|..] == crsDestination
    {
      crsOrigin + crsDestination
    }
  }

  /** `CRSFlow::operator<`: (origin, destination) lexicographically. */
  predicate CRSFlowLess(a: CRSFlow, b: CRSFlow)
  {
    StrLess(a.crsOrigin, b.crsOrigin)
    || (a.crsOrigin == b.crsOrigin && StrLess(a.crsDestination, b.crsDestination))
  }

  /** The flow order is a strict total order, so the flow index holds one
      entry per (origin, destination). */
  lemma CRSFlowLessIsOrder()
    ensures StrictTotalOrder(CRSFlowLess)
  {
    StrLessIsOrder();
  }

  /** The flow order puts every flow from an earlier origin first. */
  lemma CRSFlowOriginFirst(a: CRSFlow, b: CRSFlow)
    requires StrLess(a.crsOrigin, b.crsOrigin)
    ensures CRSFlowLess(a, b) && !CRSFlowLess(b, a)
  {
    StrLessIsOrder();
  }

  lemma CRSFlowStringInjective(a: CRSFlow, b: CRSFlow)
    requires |a.crsOrigin| == 3 && |b.crsOrigin| == 3
    requires a.GetString() == b.GetString()
    ensures a == b
  {
    var s := a.GetString();
    assert a.crsOrigin == s[..3] == b.crsOrigin;
    assert a.crsDestination == s[3..] == b.crsDestination;
  }

  // ---------------------------------------------------------------------
  // Journeys

  /** A station and the time the train calls there. */
  datatype CallingPoint = CallingPoint(crs: CRSCode, time: Uint16)

  /** `Journey`: the calling points of a journey in the order added. */
  class Journey {
    var calling: seq<CallingPoint>

    constructor()
      ensures calling == []
    {
      calling := [];
    }

    /** `Add`: the new point becomes the last; the first is unchanged unless
        the journey was empty. */
    method Add(crs: CRSCode, time: Uint16)
      modifies this
      ensures calling == old(calling) + [CallingPoint(crs, time)]
      ensures GetLast() == CallingPoint(crs, time)
      ensures old(|calling|) > 0 ==> GetFirst() == old(GetFirst())
      ensures old(|calling|) == 0 ==> GetFirst() == CallingPoint(crs, time)
    {
      calling := calling + [CallingPoint(crs, time)];
    }

    method Clear()
      modifies this
      ensures calling == []
    {
      calling := [];
    }

    /** `GetFirst`: the earliest point added; the journey must not be empty. */
    function GetFirst(): (c: CallingPoint)
      reads this
      requires |calling| > 0
      ensures c in calling
      ensures c == calling[0]
    {
      calling[0]
    }

    /** `GetLast`: the latest point added; the journey must not be empty. */
    function GetLast(): (c: CallingPoint)
      reads this
      requires |calling| > 0
      ensures c in calling
      ensures c == calling[|calling| - 1]
    {
      calling[|calling| - 1]
    }
  }
}
