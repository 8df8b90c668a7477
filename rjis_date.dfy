/** The date types the program uses (`RJISDate::Date`, `Range`, `Triple`).
    Their implementation is not part of this model: dates are year/month/day
    triples ordered by calendar position, and the text form of a date is the
    RSPS5045 `DDMMYYYY` layout. "Today" is never read from a clock here; every
    operation that needs it takes it as a parameter. */
module RJISDate {
  import opened Text

  datatype Date = Date(year: int, month: int, day: int)

  /** `a <= b`: calendar order, year first. */
  predicate AtOrBefore(a: Date, b: Date)
  {
    a.year < b.year
    || (a.year == b.year && (a.month < b.month || (a.month == b.month && a.day <= b.day)))
  }

  /** `RJISDate::Date(0)`, the value a railcard gets when it has no last valid date. */
  const NoDate := Date(0, 0, 0)

  /** The open end date the location loader gives to groups: 31 December 2999. */
  const FarFuture := Date(2999, 12, 31)

  /** `RJISDate::Range`: an inclusive pair of dates. */
  datatype Range = Range(start: Date, end: Date)
  {
    predicate IsDateInRange(d: Date)
    {
      AtOrBefore(start, d) && AtOrBefore(d, end)
    }
  }

  /** `RJISDate::Triple`: the end, start and quote dates of an RJIS record. */
  datatype Triple = Triple(end: Date, start: Date, quote: Date)
  {
    /** A record is usable for a query made on `query` for travel on `travel`
        when it was quotable on the query date and in force on the travel date. */
    predicate AreDatesValid(query: Date, travel: Date)
    {
      AtOrBefore(quote, query) && AtOrBefore(start, travel) && AtOrBefore(travel, end)
    }
  }

  /** The date written as `DDMMYYYY` at `offset`. */
  function DecodeDate(s: string, offset: nat): Date
    requires offset + 8 <= |s|
  {
    Date(DecimalValue(s[offset + 4..offset + 8]), DecimalValue(s[offset + 2..offset + 4]),
      DecimalValue(s[offset..offset + 2]))
  }

  function EncodeDate(d: Date): string
  {
    ZeroPadded(d.day, 2) + ZeroPadded(d.month, 2) + ZeroPadded(d.year, 4)
  }

  /** A date whose parts fit their text fields. */
  predicate Writable(d: Date)
  {
    0 <= d.day < 100 && 0 <= d.month < 100 && 0 <= d.year < 10000
  }

  /** The 16 characters of a range: end date then start date, or start date
      first when `startFirst` is set (the restriction file's RD record). */
  function DecodeRange(s: string, offset: nat, startFirst: bool): Range
    requires offset + 16 <= |s|
  {
    if startFirst then Range(DecodeDate(s, offset), DecodeDate(s, offset + 8))
    else Range(DecodeDate(s, offset + 8), DecodeDate(s, offset))
  }

  function EncodeRange(r: Range): string
  {
    EncodeDate(r.end) + EncodeDate(r.start)
  }

  /** The 24 characters of a triple: end, start and quote dates. */
  function DecodeTriple(s: string, offset: nat): Triple
    requires offset + 24 <= |s|
  {
    Triple(DecodeDate(s, offset), DecodeDate(s, offset + 8), DecodeDate(s, offset + 16))
  }

  function EncodeTriple(t: Triple): string
  {
    EncodeDate(t.end) + EncodeDate(t.start) + EncodeDate(t.quote)
  }

  /** Decoding reads the day, month and year fields of an 8-character text. */
  lemma DecodeDateFields(dd: string, mm: string, yy: string)
    requires |dd| == 2 && |mm| == 2 && |yy| == 4
    ensures DecodeDate(dd + mm + yy, 0) == Date(DecimalValue(yy), DecimalValue(mm), DecimalValue(dd))
  {
    var s := dd + mm + yy;
    assert s[0..2] == dd;
    assert s[2..4] == mm;
    assert s[4..8] == yy;
  }

  /** A writable date is written in 8 digits that read back as the same date. */
  lemma DateRoundTrip(d: Date)
    requires Writable(d)
    ensures |EncodeDate(d)| == 8
    ensures DecodeDate(EncodeDate(d), 0) == d
  {
    ZeroPaddedRoundTrip(d.day, 2);
    ZeroPaddedRoundTrip(d.month, 2);
    ZeroPaddedRoundTrip(d.year, 4);
    DecodeDateFields(ZeroPadded(d.day, 2), ZeroPadded(d.month, 2), ZeroPadded(d.year, 4));
  }

  lemma DateLength(d: Date)
    requires Writable(d)
    ensures |EncodeDate(d)| == 8
  {
    ZeroPaddedRoundTrip(d.day, 2);
    ZeroPaddedRoundTrip(d.month, 2);
    ZeroPaddedRoundTrip(d.year, 4);
  }

  lemma TripleLength(t: Triple)
    requires Writable(t.end) && Writable(t.start) && Writable(t.quote)
    ensures |EncodeTriple(t)| == 24
  {
    DateLength(t.end);
    DateLength(t.start);
    DateLength(t.quote);
  }

  /** Decoding at an offset reads only the 8 characters there. */
  lemma DecodeDateShift(s: string, offset: nat)
    requires offset + 8 <= |s|
    ensures DecodeDate(s, offset) == DecodeDate(s[offset..offset + 8], 0)
  {
    SliceOfSlice(s, offset, offset + 8, 0, 2);
    SliceOfSlice(s, offset, offset + 8, 2, 4);
    SliceOfSlice(s, offset, offset + 8, 4, 8);
  }

  /** A range reads its end date from the first 8 characters and its start
      date from the next 8. */
  lemma DecodeRangeFields(s: string, offset: nat, e: string, st: string)
    requires |e| == 8 && |st| == 8 && offset + 16 <= |s| && s[offset..offset + 16] == e + st
    ensures DecodeRange(s, offset, false) == Range(DecodeDate(st, 0), DecodeDate(e, 0))
  {
    SliceOfSlice(s, offset, offset + 16, 0, 8);
    SliceOfSlice(s, offset, offset + 16, 8, 16);
    assert (e + st)[0..8] == e && (e + st)[8..16] == st;
    DecodeDateShift(s, offset);
    DecodeDateShift(s, offset + 8);
  }

  lemma RangeRoundTrip(r: Range, s: string, offset: nat)
    requires Writable(r.start) && Writable(r.end)
    requires offset + 16 <= |s| && s[offset..offset + 16] == EncodeRange(r)
    ensures DecodeRange(s, offset, false) == r
  {
    DateRoundTrip(r.end);
    DateRoundTrip(r.start);
    DecodeRangeFields(s, offset, EncodeDate(r.end), EncodeDate(r.start));
  }

  lemma SliceOfSlice(s: string, a: nat, b: nat, c: nat, d: nat)
    requires a <= b <= |s| && c <= d <= b - a
    ensures s[a..b][c..d] == s[a + c..a + d]
  {
    assert forall i :: 0 <= i < d - c ==> s[a..b][c..d][i] == s[a + c..a + d][i];
  }

  /** A triple reads its end, start and quote dates from consecutive 8-character fields. */
  lemma DecodeTripleFields(s: string, offset: nat, e: string, st: string, q: string)
    requires |e| == 8 && |st| == 8 && |q| == 8
    requires offset + 24 <= |s| && s[offset..offset + 24] == e + st + q
    ensures DecodeTriple(s, offset) == Triple(DecodeDate(e, 0), DecodeDate(st, 0), DecodeDate(q, 0))
  {
    SliceOfSlice(s, offset, offset + 24, 0, 8);
    SliceOfSlice(s, offset, offset + 24, 8, 16);
    SliceOfSlice(s, offset, offset + 24, 16, 24);
    var w := e + st + q;
    assert w[0..8] == e && w[8..16] == st && w[16..24] == q;
    DecodeDateShift(s, offset);
    DecodeDateShift(s, offset + 8);
    DecodeDateShift(s, offset + 16);
  }

  lemma TripleRoundTrip(t: Triple, s: string, offset: nat)
    requires Writable(t.end) && Writable(t.start) && Writable(t.quote)
    requires offset + 24 <= |s| && s[offset..offset + 24] == EncodeTriple(t)
    ensures DecodeTriple(s, offset) == t
  {
    DateRoundTrip(t.end);
    DateRoundTrip(t.start);
    DateRoundTrip(t.quote);
    DecodeTripleFields(s, offset, EncodeDate(t.end), EncodeDate(t.start), EncodeDate(t.quote));
  }
}
