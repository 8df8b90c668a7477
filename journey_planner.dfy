/** The journey planner's plan files (`JourneyPlanner.cpp`). A plan line
    names an origin and a destination CRS code, a colon, and the plans for
    that pair: each plan is a list of three-letter CRS codes at which to
    change, separated by spaces, and plans are separated by `|`. The lines
    are read by a character state machine into the global table
    `allplans[origin][destination]`; `GetPlan` then asks the timetable for
    one leg after another, allowing ten minutes to change trains. */
module JourneyPlanner {
  import opened Wrappers
  import opened Text
  import opened Codes
  import opened TTTypes

  /** `Oneplan`: the stations at which to change, in order. */
  type Plan = seq<CRSCode>

  /** The end-of-line marker appended to every line before it is scanned. */
  const EndMarker: char := '\U{0001}'

  /** The scanner's states: between plans, inside a CRS code, or after the
      whitespace that ends one. */
  datatype ScanState = Init | InCRS | GotCRS

  /** The machine's variables: the state, the code being read, the plan
      being built and the plans completed so far. */
  datatype Scan = Scan(state: ScanState, current: string, plan: Plan, plans: seq<Plan>)

  const Start := Scan(Init, "", [], [])

  /** Why a line is rejected. */
  datatype ErrorKind = ColonExpected | UnexpectedEnd | UnexpectedSpace | UnexpectedChar(c: char)

  /** A rejected line's message: what went wrong and the (1-based) count of
      lines accepted before it, plus one. */
  datatype PlanError = PlanError(kind: ErrorKind, lineNumber: int)

  /** One character of the state machine. */
  function Step(s: Scan, c: char): Result<Scan, ErrorKind>
  {
    match s.state
    case Init =>
      if IsUpper(c) then Ok(s.(state := InCRS, current := s.current + [c]))
      else if !IsSpace(c) then
        (if c == EndMarker then Err(UnexpectedEnd) else Err(UnexpectedChar(c)))
      else Ok(s)
    case InCRS =>
      if IsUpper(c) then
        (if |s.current + [c]| > 3 then Err(UnexpectedChar(c)) else Ok(s.(current := s.current + [c])))
      else if |s.current| != 3 then
        (if c == EndMarker then Err(UnexpectedEnd)
         else if IsSpace(c) then Err(UnexpectedSpace)
         else Err(UnexpectedChar(c)))
      else if IsSpace(c) then Ok(Scan(GotCRS, "", s.plan + [s.current], s.plans))
      else if c == '|' then Ok(Scan(Init, "", [], s.plans + [s.plan + [s.current]]))
      else if c == EndMarker then
        Ok(s.(plan := s.plan + [s.current], plans := s.plans + [s.plan + [s.current]]))
      else Err(UnexpectedChar(c))
    case GotCRS =>
      if IsUpper(c) then Ok(s.(state := InCRS, current := s.current + [c]))
      else if c == '|' then Ok(Scan(Init, s.current, [], s.plans + [s.plan]))
      else if c == EndMarker then Ok(s)
      else if c != ' ' then Err(UnexpectedChar(c))
      else Ok(s)
  }

  /** The machine run over `cs` from `s`, stopping at the first error. */
  function Run(s: Scan, cs: string): Result<Scan, ErrorKind>
    decreases |cs|
  {
    if cs == [] then Ok(s)
    else
      match Step(s, cs[0])
      case Err(e) => Err(e)
      case Ok(next) => Run(next, cs[1..])
  }

  /** The line as scanned: trimmed, with the end marker appended. */
  function Marked(raw: string): (m: string)
    ensures |m| >= 1 && m[|m| - 1] == EndMarker
  {
    Trim(raw) + [EndMarker]
  }

  /** A comment: a marked line of at most two characters, or one whose first
      or second character is `/`. */
  predicate IsComment(m: string)
  {
    !(|m| > 2 && m[0] != '/' && m[1] != '/')
  }

  /** What a line holds: nothing, or the plans for an origin and destination. */
  datatype PlanLine = Comment | PlanList(origin: CRSCode, destination: CRSCode, plans: seq<Plan>)

  /** `LineFunc` without its side effects: a comment, the plans of the line,
      or the reason it is rejected. A line too short to have a seventh
      character is rejected as missing its colon. */
  function ParsePlanLine(raw: string): Result<PlanLine, ErrorKind>
  {
    var m := Marked(raw);
    if IsComment(m) then Ok(Comment)
    else if |m| < 7 || m[6] != ':' then Err(ColonExpected)
    else
      match Run(Start, m[7..])
      case Err(e) => Err(e)
      case Ok(s) => Ok(PlanList(m[..3], m[3..6], s.plans))
  }

  /** `allplans[o][d] = plans`: the one entry replaced or added. */
  function Put2(table: map<CRSCode, map<CRSCode, seq<Plan>>>, o: CRSCode, d: CRSCode, plans: seq<Plan>)
    : (r: map<CRSCode, map<CRSCode, seq<Plan>>>)
    ensures o in r && d in r[o] && r[o][d] == plans
    ensures forall o' :: o' != o ==> (o' in r <==> o' in table) && (o' in r ==> r[o'] == table[o'])
    ensures forall d' :: d' != d && o in table ==> (d' in r[o] <==> d' in table[o]) && (d' in r[o] ==> r[o][d'] == table[o][d'])
    ensures o !in table ==> r[o].Keys == {d}
  {
    table[o := (if o in table then table[o] else map[])[d := plans]]
  }

  /** The table after one line: a plan line overwrites its entry; comments
      and rejected lines leave the table as it was. */
  function StoreLine(table: map<CRSCode, map<CRSCode, seq<Plan>>>, raw: string): map<CRSCode, map<CRSCode, seq<Plan>>>
  {
    match ParsePlanLine(raw)
    case Ok(PlanList(o, d, plans)) => Put2(table, o, d, plans)
    case _ => table
  }

  function StoreLines(table: map<CRSCode, map<CRSCode, seq<Plan>>>, lines: seq<string>): map<CRSCode, map<CRSCode, seq<Plan>>>
  {
    if lines == [] then table else StoreLine(StoreLines(table, lines[..|lines| - 1]), lines[|lines| - 1])
  }

  // ---------------------------------------------------------------------
  // The scanner as the program runs it

  /** The character loop of `LineFunc` from column 7 of the marked line,
      returning at the first character that would throw. */
  method ScanPlans(m: string) returns (r: Result<Scan, ErrorKind>)
    requires |m| >= 7
    ensures r == Run(Start, m[7..])
  {
    var state := Init;
    var currentCRS := "";
    var oneplan: Plan := [];
    var plans: seq<Plan> := [];
    var i := 7;
    while i < |m|
      invariant 7 <= i <= |m|
      invariant Run(Start, m[7..]) == Run(Scan(state, currentCRS, oneplan, plans), m[i..])
    {
      var c := m[i];
      assert m[i..][0] == c && m[i..][1..] == m[i + 1..];
      if state == Init {
        if IsUpper(c) {
          state := InCRS;
          currentCRS := currentCRS + [c];
        } else if !IsSpace(c) {
          if c == EndMarker {
            return Err(UnexpectedEnd);
          } else {
            return Err(UnexpectedChar(c));
          }
        }
      } else if state == InCRS {
        if IsUpper(c) {
          currentCRS := currentCRS + [c];
          if |currentCRS| > 3 {
            return Err(UnexpectedChar(c));
          }
        } else if |currentCRS| != 3 {
          if c == EndMarker {
            return Err(UnexpectedEnd);
          } else if IsSpace(c) {
            return Err(UnexpectedSpace);
          } else {
            return Err(UnexpectedChar(c));
          }
        } else if IsSpace(c) {
          oneplan := oneplan + [currentCRS];
          currentCRS := "";
          state := GotCRS;
        } else if c == '|' {
          oneplan := oneplan + [currentCRS];
          currentCRS := "";
          plans := plans + [oneplan];
          oneplan := [];
          state := Init;
        } else if c == EndMarker {
          oneplan := oneplan + [currentCRS];
          plans := plans + [oneplan];
        } else {
          return Err(UnexpectedChar(c));
        }
      } else {
        if IsUpper(c) {
          currentCRS := currentCRS + [c];
          state := InCRS;
        } else if c == '|' {
          plans := plans + [oneplan];
          oneplan := [];
          state := Init;
        } else if c == EndMarker {
        } else if c != ' ' {
          return Err(UnexpectedChar(c));
        }
      }
      i := i + 1;
    }
    return Ok(Scan(state, currentCRS, oneplan, plans));
  }

  /** The global `allplans` table and `LineFunc`'s static line counter. */
  class PlanTable {
    var allplans: map<CRSCode, map<CRSCode, seq<Plan>>>
    var linenumber: int

    constructor()
      ensures allplans == map[] && linenumber == 0
    {
      allplans := map[];
      linenumber := 0;
    }

    /** `LineFunc`: a plan line overwrites `allplans[origin][destination]`;
        a comment changes nothing; a rejected line changes nothing and its
        error (which the program prints) is returned. The line counter
        advances for every line that is not rejected. */
    method LineFunc(raw: string) returns (error: Option<PlanError>)
      modifies this
      ensures allplans == StoreLine(old(allplans), raw)
      ensures ParsePlanLine(raw).Err? ==> linenumber == old(linenumber)
                                          && error == Some(PlanError(ParsePlanLine(raw).error, old(linenumber) + 1))
      ensures ParsePlanLine(raw).Ok? ==> linenumber == old(linenumber) + 1 && error == None
    {
      var line := Trim(raw) + [EndMarker];
      if |line| > 2 && line[0] != '/' && line[1] != '/' {
        if |line| < 7 || line[6] != ':' {
          return Some(PlanError(ColonExpected, linenumber + 1));
        }
        var origin, destination := line[..3], line[3..6];
        var scanned := ScanPlans(line);
        if scanned.Err? {
          return Some(PlanError(scanned.error, linenumber + 1));
        }
        allplans := Put2(allplans, origin, destination, scanned.value.plans);
      }
      linenumber := linenumber + 1;
      return None;
    }

    /** `LoadPlanFile`: every line of a plan file through `LineFunc`, in
        order. The file's lines are a parameter here. */
    method LoadPlanLines(lines: seq<string>)
      modifies this
      ensures allplans == StoreLines(old(allplans), lines)
    {
      var i := 0;
      while i < |lines|
        invariant 0 <= i <= |lines|
        invariant allplans == StoreLines(old(allplans), lines[..i])
      {
        var _ := LineFunc(lines[i]);
        assert lines[..i + 1][..i] == lines[..i];
        i := i + 1;
      }
      assert lines[..i] == lines;
    }

    /** `GetPlan`: load the origin's plan file, then for each plan for the
        pair ask the timetable for its legs. `allplans[origin][destination]`
        creates an empty entry when there is none. `legTime` stands for
        `GetSingleLegTimes`, which is not part of this model; the queries
        made are returned. `earliestMinutes` is a `short`. */
    method GetPlan(origin: CRSCode, destination: CRSCode, earliestMinutes: int, planFile: seq<string>,
                   legTime: (CRSCode, CRSCode, int) -> int)
      returns (queries: seq<seq<Leg>>)
      requires -0x8000 <= earliestMinutes < 0x8000
      modifies this
      ensures var loaded := StoreLines(old(allplans), planFile);
              var plans := Entry(loaded, origin, destination);
              allplans == Put2(loaded, origin, destination, plans)
              && |queries| == |plans|
              && forall k :: 0 <= k < |plans| ==>
                   queries[k] == PlanLegs(origin, destination, plans[k], earliestMinutes, legTime)
      ensures forall k, j :: 0 <= k < |queries| && 0 <= j < |queries[k]| ==>
                -0x8000 <= queries[k][j].minutes < 0x8000
    {
      LoadPlanLines(planFile);
      var plans := Entry(allplans, origin, destination);
      allplans := Put2(allplans, origin, destination, plans);
      queries := PlansLegsLoop(origin, destination, plans, earliestMinutes, legTime);
      forall k | 0 <= k < |queries| {
        LegMinutesAreShort(origin, destination, plans[k], earliestMinutes, legTime);
      }
    }
  }

  /** The loop of `GetPlan` over the plans of one journey. */
  method PlansLegsLoop(origin: CRSCode, destination: CRSCode, plans: seq<Plan>, earliestMinutes: int,
                       legTime: (CRSCode, CRSCode, int) -> int)
    returns (queries: seq<seq<Leg>>)
    ensures |queries| == |plans|
    ensures forall k :: 0 <= k < |plans| ==>
              queries[k] == PlanLegs(origin, destination, plans[k], earliestMinutes, legTime)
  {
    queries := [];
    var i := 0;
    while i < |plans|
      invariant 0 <= i <= |plans|
      invariant |queries| == i
      invariant forall k :: 0 <= k < i ==> queries[k] == PlanLegs(origin, destination, plans[k], earliestMinutes, legTime)
    {
      var legs := PlanLegsLoop(origin, destination, plans[i], earliestMinutes, legTime);
      queries := queries + [legs];
      i := i + 1;
    }
  }

  /** `allplans[o][d]`, empty when absent. */
  function Entry(table: map<CRSCode, map<CRSCode, seq<Plan>>>, o: CRSCode, d: CRSCode): (r: seq<Plan>)
    ensures o in table && d in table[o] ==> r == table[o][d]
    ensures !(o in table && d in table[o]) ==> r == []
  {
    if o in table && d in table[o] then table[o][d] else []
  }

  // ---------------------------------------------------------------------
  // Legs of a plan

  /** One `GetSingleLegTimes` query: from, to, and the earliest departure. */
  datatype Leg = Leg(from: CRSCode, to: CRSCode, minutes: int)

  /** Where a plan's legs have got to: the station reached, the earliest
      time the next leg may leave, and the legs asked for so far. */
  datatype ChainState = ChainState(at: CRSCode, minutes: int, legs: seq<Leg>)

  /** The earliest time after a leg: its arrival plus ten minutes of change
      time, held in a `short` as the program does. */
  function NextMinutes(leg: Leg, legTime: (CRSCode, CRSCode, int) -> int): int
  {
    ToShort(10 + ToShort(legTime(leg.from, leg.to, leg.minutes)))
  }

  /** The legs asked for up to the plan's last change station. The first
      leaves the origin at the earliest time, each later one leaves where the
      previous one went, ten minutes after that leg's arrival. */
  function Chain(origin: CRSCode, plan: Plan, earliest: int, legTime: (CRSCode, CRSCode, int) -> int)
    : (r: ChainState)
    ensures ChainShape(origin, plan, earliest, legTime, r)
  {
    if plan == [] then ChainState(origin, earliest, [])
    else
      var c := Chain(origin, plan[..|plan| - 1], earliest, legTime);
      ChainSnoc(origin, plan, earliest, legTime, c);
      var leg := Leg(c.at, plan[|plan| - 1], c.minutes);
      ChainState(plan[|plan| - 1], NextMinutes(leg, legTime), c.legs + [leg])
  }

  /** What the legs of `Chain` are, leg by leg. */
  predicate ChainShape(origin: CRSCode, plan: Plan, earliest: int, legTime: (CRSCode, CRSCode, int) -> int, r: ChainState)
  {
    && |r.legs| == |plan|
    && r.at == (if plan == [] then origin else plan[|plan| - 1])
    && (forall k {:trigger r.legs[k]} :: 0 <= k < |plan| ==> r.legs[k].to == plan[k])
    && (plan != [] ==> r.legs[0].from == origin && r.legs[0].minutes == earliest)
    && (forall k :: 0 < k < |plan| ==> r.legs[k].from == plan[k - 1])
    && (forall k :: 0 < k < |plan| ==> r.legs[k].minutes == NextMinutes(r.legs[k - 1], legTime))
    && r.minutes == if plan == [] then earliest else NextMinutes(r.legs[|plan| - 1], legTime)
  }

  /** One more change station extends the chain by one leg. */
  lemma ChainSnoc(origin: CRSCode, plan: Plan, earliest: int, legTime: (CRSCode, CRSCode, int) -> int, c: ChainState)
    requires plan != [] && ChainShape(origin, plan[..|plan| - 1], earliest, legTime, c)
    ensures var leg := Leg(c.at, plan[|plan| - 1], c.minutes);
      ChainShape(origin, plan, earliest, legTime, ChainState(plan[|plan| - 1], NextMinutes(leg, legTime), c.legs + [leg]))
  {
    var n := |plan| - 1;
    var init := plan[..n];
    var leg := Leg(c.at, plan[n], c.minutes);
    var legs := c.legs + [leg];
    assert forall k {:trigger init[k]} :: 0 <= k < n ==> init[k] == plan[k];
    assert forall k {:trigger legs[k]} :: 0 <= k < n ==> legs[k] == c.legs[k];
    assert legs[n] == leg;
  }

  /** The legs `GetPlan` asks for one plan: one per change station, then the
      last one to the destination. */
  function PlanLegs(origin: CRSCode, destination: CRSCode, plan: Plan, earliest: int,
                    legTime: (CRSCode, CRSCode, int) -> int): seq<Leg>
  {
    var c := Chain(origin, plan, earliest, legTime);
    c.legs + [Leg(c.at, destination, c.minutes)]
  }

  /** The inner loop of `GetPlan` over one plan. */
  method PlanLegsLoop(origin: CRSCode, destination: CRSCode, plan: Plan, earliest: int,
                      legTime: (CRSCode, CRSCode, int) -> int)
    returns (legs: seq<Leg>)
    ensures legs == PlanLegs(origin, destination, plan, earliest, legTime)
  {
    var currentOrigin := origin;
    var currentMinutes := earliest;
    legs := [];
    var i := 0;
    while i < |plan|
      invariant 0 <= i <= |plan|
      invariant Chain(origin, plan[..i], earliest, legTime) == ChainState(currentOrigin, currentMinutes, legs)
    {
      var crs := plan[i];
      assert plan[..i + 1][..i] == plan[..i];
      legs := legs + [Leg(currentOrigin, crs, currentMinutes)];
      currentMinutes := ToShort(10 + ToShort(legTime(currentOrigin, crs, currentMinutes)));
      currentOrigin := crs;
      i := i + 1;
    }
    assert plan[..i] == plan;
    legs := legs + [Leg(currentOrigin, destination, currentMinutes)];
  }

  /** Every leg of a plan starts at a `short` time: the first at the `short`
      earliest time, each later one at a sum wrapped to `short`. */
  lemma LegMinutesAreShort(origin: CRSCode, destination: CRSCode, plan: Plan, earliest: int,
                           legTime: (CRSCode, CRSCode, int) -> int)
    requires -0x8000 <= earliest < 0x8000
    ensures var legs := PlanLegs(origin, destination, plan, earliest, legTime);
            forall j :: 0 <= j < |legs| ==> -0x8000 <= legs[j].minutes < 0x8000
  {
    PlanLegsShape(origin, destination, plan, earliest, legTime);
    var legs := PlanLegs(origin, destination, plan, earliest, legTime);
    forall j | 0 < j < |legs|
      ensures -0x8000 <= legs[j].minutes < 0x8000
    {
      assert legs[j].minutes == NextMinutes(legs[j - 1], legTime);
    }
  }

  /** `GetPlan`'s legs for one plan: one more than the change stations, the
      last from the final change station (or the origin) to the destination,
      leaving ten minutes after the previous leg's arrival. */
  lemma PlanLegsShape(origin: CRSCode, destination: CRSCode, plan: Plan, earliest: int,
                      legTime: (CRSCode, CRSCode, int) -> int)
    ensures var legs := PlanLegs(origin, destination, plan, earliest, legTime);
            |legs| == |plan| + 1
            && legs[0].from == origin && legs[0].minutes == earliest
            && legs[|plan|].to == destination
            && legs[|plan|].from == (if plan == [] then origin else plan[|plan| - 1])
            && (forall k :: 0 < k <= |plan| ==> legs[k].from == legs[k - 1].to)
            && (forall k :: 0 < k <= |plan| ==> legs[k].minutes == NextMinutes(legs[k - 1], legTime))
  {
    var c := Chain(origin, plan, earliest, legTime);
    var legs := PlanLegs(origin, destination, plan, earliest, legTime);
    assert forall k :: 0 <= k < |plan| ==> legs[k] == c.legs[k];
  }

  // ---------------------------------------------------------------------
  // What a parsed line holds

  predicate IsCRS(t: string) { |t| == 3 && AllUpper(t) }

  predicate AllCRS(p: Plan) { forall k :: 0 <= k < |p| ==> IsCRS(p[k]) }

  /** Plans as stored: non-empty lists of three-letter codes. */
  predicate GoodPlans(ps: seq<Plan>) { forall k :: 0 <= k < |ps| ==> ps[k] != [] && AllCRS(ps[k]) }

  /** What holds of the machine's variables between characters. */
  predicate Consistent(s: Scan)
  {
    GoodPlans(s.plans) && AllCRS(s.plan) && AllUpper(s.current) && |s.current| <= 3
    && (s.state == Init ==> s.current == [])
    && (s.state == GotCRS ==> s.current == [] && s.plan != [])
    && (s.state == InCRS ==> s.current != [])
  }

  lemma StepConsistent(s: Scan, c: char)
    requires Consistent(s) && Step(s, c).Ok?
    ensures Consistent(Step(s, c).value)
  {
    var n := Step(s, c).value;
    assert forall k :: 0 <= k < |n.plans| ==> k < |s.plans| ==> n.plans[k] == s.plans[k];
    if s.state != Init && !IsUpper(c) && s.current != [] {
      assert IsCRS(s.current);
    }
  }

  lemma {:induction false} RunConsistent(s: Scan, cs: string)
    requires Consistent(s) && Run(s, cs).Ok?
    ensures Consistent(Run(s, cs).value)
    decreases |cs|
  {
    if cs != [] {
      StepConsistent(s, cs[0]);
      RunConsistent(Step(s, cs[0]).value, cs[1..]);
    }
  }

  /** Every plan stored is a non-empty list of codes of exactly three
      upper-case letters, and the origin and destination are the line's
      first six characters. */
  lemma ParsedPlansAreCRS(raw: string)
    requires ParsePlanLine(raw).Ok? && ParsePlanLine(raw).value.PlanList?
    ensures GoodPlans(ParsePlanLine(raw).value.plans)
    ensures |Trim(raw)| >= 6
    ensures ParsePlanLine(raw).value.origin == Trim(raw)[..3]
    ensures ParsePlanLine(raw).value.destination == Trim(raw)[3..6]
  {
    var m := Marked(raw);
    RunConsistent(Start, m[7..]);
  }

  /** A line whose seventh character (after trimming) is not a colon is
      rejected, unless it is a comment. */
  lemma ColonRequired(raw: string)
    requires !IsComment(Marked(raw)) && (|Marked(raw)| < 7 || Marked(raw)[6] != ':')
    ensures ParsePlanLine(raw) == Err(ColonExpected)
  {
  }

  // ---------------------------------------------------------------------
  // A line with no plans, or ending in '|', is rejected

  lemma {:induction false} RunAppend(s: Scan, a: string, b: string)
    ensures Run(s, a).Err? ==> Run(s, a + b) == Err(Run(s, a).error)
    ensures Run(s, a).Ok? ==> Run(s, a + b) == Run(Run(s, a).value, b)
    decreases |a|
  {
    if a != [] {
      assert (a + b)[0] == a[0] && (a + b)[1..] == a[1..] + b;
      match Step(s, a[0])
      case Err(_) =>
      case Ok(n) => RunAppend(n, a[1..], b);
    } else {
      assert a + b == b;
    }
  }

  /** One character, then the rest. */
  lemma RunStep(s: Scan, c: char, rest: string)
    ensures Step(s, c).Err? ==> Run(s, [c] + rest) == Err(Step(s, c).error)
    ensures Step(s, c).Ok? ==> Run(s, [c] + rest) == Run(Step(s, c).value, rest)
  {
    assert ([c] + rest)[0] == c && ([c] + rest)[1..] == rest;
  }

  /** After a character that is neither whitespace nor the end marker the
      machine is never waiting after a code. */
  lemma StepNotAfterSpace(s: Scan, c: char)
    requires !IsSpace(c) && c != EndMarker && Step(s, c).Ok?
    ensures Step(s, c).value.state != GotCRS
  {
  }

  /** The end marker completes a plan only straight after a complete code:
      in `Init` it is an error, and in `GotCRS` it completes nothing. */
  lemma EndMarkerStep(s: Scan)
    ensures s.state == Init ==> Step(s, EndMarker) == Err(UnexpectedEnd)
    ensures s.state == InCRS && |s.current| == 3 ==>
              Step(s, EndMarker) == Ok(s.(plan := s.plan + [s.current], plans := s.plans + [s.plan + [s.current]]))
    ensures s.state == GotCRS ==> Step(s, EndMarker) == Ok(s)
  {
  }

  /** A plan line holding no end marker of its own that is accepted has at
      least one plan: an empty plan list is rejected. */
  lemma AcceptedLineHasPlans(raw: string)
    requires EndMarker !in raw
    requires ParsePlanLine(raw).Ok? && ParsePlanLine(raw).value.PlanList?
    ensures ParsePlanLine(raw).value.plans != []
  {
    var t := Trim(raw);
    var m := Marked(raw);
    assert m == t + [EndMarker];
    var body := m[7..|m| - 1];
    assert m[7..] == body + [EndMarker];
    if body != [] {
      TrimIsSlice(raw);
      assert body[|body| - 1] == t[|t| - 1];
    }
    BodyHasPlans(body);
  }

  /** A `|` straight before the end marker is always an error: after `|` the
      machine is back in `Init` (or has already failed), and the end marker
      is an error there. */
  lemma BarBeforeEndRejected(s: Scan, body: string)
    ensures Run(s, body + ['|', EndMarker]).Err?
  {
    RunAppend(s, body, ['|', EndMarker]);
    if Run(s, body).Ok? {
      var t := Run(s, body).value;
      RunStep(t, '|', [EndMarker]);
      if Step(t, '|').Ok? {
        var n := Step(t, '|').value;
        assert n.state == Init;
        RunStep(n, EndMarker, []);
        EndMarkerStep(n);
      }
    }
  }

  /** A plan line, not a comment and with its colon at column 7, whose
      trimmed text ends in `|` is rejected. */
  lemma TrailingBarRejected(raw: string)
    requires !IsComment(Marked(raw)) && |Marked(raw)| >= 7 && Marked(raw)[6] == ':'
    requires Trim(raw) != [] && Trim(raw)[|Trim(raw)| - 1] == '|'
    ensures ParsePlanLine(raw).Err?
  {
    var t := Trim(raw);
    var m := Marked(raw);
    assert m == t + [EndMarker];
    assert |t| >= 8 by {
      assert m[|t|] == EndMarker;
      assert t[6] == ':';
    }
    var body := m[7..|m| - 2];
    assert m[7..] == body + ['|', EndMarker];
    BarBeforeEndRejected(Start, body);
  }

  /** The plan text after the colon, when it does not end in whitespace or an
      end marker of its own, is accepted only with at least one plan. */
  lemma BodyHasPlans(body: string)
    requires body != [] ==> !IsSpace(body[|body| - 1]) && body[|body| - 1] != EndMarker
    ensures Run(Start, body + [EndMarker]).Ok? ==> Run(Start, body + [EndMarker]).value.plans != []
  {
    if body == [] {
      RunStep(Start, EndMarker, []);
    } else {
      var c := body[|body| - 1];
      var pre := body[..|body| - 1];
      assert body + [EndMarker] == pre + [c, EndMarker];
      RunAppend(Start, pre, [c, EndMarker]);
      if Run(Start, pre).Ok? {
        LastTwoSteps(Run(Start, pre).value, c);
      }
    }
  }

  /** A last character that is neither whitespace nor a marker, then the end
      marker: accepted only by completing a plan. */
  lemma LastTwoSteps(s: Scan, c: char)
    requires !IsSpace(c) && c != EndMarker
    ensures Run(s, [c, EndMarker]).Ok? ==> Run(s, [c, EndMarker]).value.plans != []
  {
    assert [c, EndMarker] == [c] + [EndMarker];
    RunStep(s, c, [EndMarker]);
    if Step(s, c).Ok? {
      var n := Step(s, c).value;
      StepNotAfterSpace(s, c);
      RunStep(n, EndMarker, []);
      EndMarkerStep(n);
    }
  }

  /** Every character of the trimmed text is a character of the original. */
  lemma TrimIsSlice(raw: string)
    ensures forall k :: 0 <= k < |Trim(raw)| ==> Trim(raw)[k] in raw
  {
    var l := TrimLeft(raw);
    var t := TrimRight(l);
    assert forall k :: 0 <= k < |t| ==> t[k] == l[k] == raw[|raw| - |l| + k];
  }

  // ---------------------------------------------------------------------
  // Round trip: a plan line written out reads back as its plans

  /** A plan written as its codes separated by single spaces. */
  function PlanText(p: Plan): string
  {
    Join(p, " ")
  }

  /** Plans written one after another, separated by `|`. */
  function PlansText(ps: seq<Plan>): string
    decreases |ps|
  {
    if |ps| <= 1 then (if ps == [] then "" else PlanText(ps[0]))
    else PlanText(ps[0]) + "|" + PlansText(ps[1..])
  }

  /** A plan line: origin, destination, a colon and the plans. */
  function PlanLineText(o: CRSCode, d: CRSCode, ps: seq<Plan>): string
  {
    o + d + ":" + PlansText(ps)
  }

  /** A three-letter code moves the machine from between codes into the code. */
  lemma CodeRun(s: Scan, t: string)
    requires s.state != InCRS && s.current == [] && IsCRS(t)
    ensures Run(s, t) == Ok(Scan(InCRS, t, s.plan, s.plans))
  {
    var s1 := s.(state := InCRS, current := [t[0]]);
    var s2 := s1.(current := [t[0], t[1]]);
    var s3 := s2.(current := [t[0], t[1], t[2]]);
    assert IsUpper(t[0]) && IsUpper(t[1]) && IsUpper(t[2]);
    assert s.current + [t[0]] == [t[0]];
    assert Step(s, t[0]) == Ok(s1);
    assert s1.current + [t[1]] == [t[0], t[1]];
    assert Step(s1, t[1]) == Ok(s2);
    assert s2.current + [t[2]] == [t[0], t[1], t[2]];
    assert Step(s2, t[2]) == Ok(s3);
    assert Run(s3, []) == Ok(s3);
    assert Run(s2, t[2..]) == Ok(s3);
    assert Run(s1, t[1..]) == Ok(s3);
    assert t[1..][0] == t[1] && t[1..][1..] == t[2..] && t[2..][0] == t[2] && t[2..][1..] == [];
    assert [t[0], t[1], t[2]] == t;
  }

  /** A plan's text leaves the machine inside the plan's last code, with the
      earlier codes added to the plan being built. */
  lemma {:induction false} PlanRun(s: Scan, p: Plan)
    requires s.state != InCRS && s.current == [] && p != [] && AllCRS(p)
    ensures Run(s, PlanText(p)) == Ok(Scan(InCRS, p[|p| - 1], s.plan + p[..|p| - 1], s.plans))
    decreases |p|
  {
    assert IsCRS(p[0]);
    if |p| == 1 {
      assert PlanText(p) == p[0];
      CodeRun(s, p[0]);
      assert s.plan + p[..0] == s.plan;
    } else {
      var rest := p[1..];
      assert PlanText(p) == p[0] + (" " + PlanText(rest));
      RunAppend(s, p[0], " " + PlanText(rest));
      CodeRun(s, p[0]);
      var inCode := Scan(InCRS, p[0], s.plan, s.plans);
      var after := Scan(GotCRS, "", s.plan + [p[0]], s.plans);
      assert Step(inCode, ' ') == Ok(after);
      RunStep(inCode, ' ', PlanText(rest));
      assert Run(s, PlanText(p)) == Run(after, PlanText(rest));
      assert AllCRS(rest) by {
        assert forall k :: 0 <= k < |rest| ==> rest[k] == p[k + 1];
      }
      PlanRun(after, rest);
      assert rest[|rest| - 1] == p[|p| - 1];
      assert after.plan + rest[..|rest| - 1] == s.plan + p[..|p| - 1] by {
        assert [p[0]] + rest[..|rest| - 1] == p[..|p| - 1];
      }
    }
  }

  /** The plans' text and the end marker, read from between plans, complete
      every plan. */
  lemma {:induction false} PlansRun(acc: seq<Plan>, ps: seq<Plan>)
    requires ps != [] && GoodPlans(ps)
    ensures Run(Scan(Init, "", [], acc), PlansText(ps) + [EndMarker]).Ok?
    ensures Run(Scan(Init, "", [], acc), PlansText(ps) + [EndMarker]).value.plans == acc + ps
    decreases |ps|
  {
    var p := ps[0];
    if |ps| == 1 {
      assert PlansText(ps) == PlanText(p);
      LastPlanRun(acc, p);
      assert acc + ps == acc + [p];
    } else {
      var rest := ps[1..];
      var tail := PlansText(rest) + [EndMarker];
      assert PlansText(ps) + [EndMarker] == PlanText(p) + (['|'] + tail);
      NextPlanRun(acc, p, tail);
      assert GoodPlans(rest) by {
        assert forall k :: 0 <= k < |rest| ==> rest[k] == ps[k + 1];
      }
      PlansRun(acc + [p], rest);
      assert acc + [p] + rest == acc + ps;
    }
  }

  /** A plan read from between plans leaves its last code being read. */
  lemma FirstPlanRead(acc: seq<Plan>, p: Plan)
    requires p != [] && AllCRS(p)
    ensures IsCRS(p[|p| - 1]) && p[..|p| - 1] + [p[|p| - 1]] == p
    ensures Run(Scan(Init, "", [], acc), PlanText(p)) == Ok(Scan(InCRS, p[|p| - 1], p[..|p| - 1], acc))
  {
    var s := Scan(Init, "", [], acc);
    PlanRun(s, p);
    assert s.plan + p[..|p| - 1] == p[..|p| - 1];
    assert p[..|p| - 1] + [p[|p| - 1]] == p;
  }

  /** The last plan, then the end marker: the plan is complete. */
  lemma LastPlanRun(acc: seq<Plan>, p: Plan)
    requires p != [] && AllCRS(p)
    ensures Run(Scan(Init, "", [], acc), PlanText(p) + [EndMarker]).Ok?
    ensures Run(Scan(Init, "", [], acc), PlanText(p) + [EndMarker]).value.plans == acc + [p]
  {
    var s := Scan(Init, "", [], acc);
    FirstPlanRead(acc, p);
    var inCode := Scan(InCRS, p[|p| - 1], p[..|p| - 1], acc);
    RunAppend(s, PlanText(p), [EndMarker]);
    RunStep(inCode, EndMarker, []);
    assert [EndMarker] == [EndMarker] + [];
    var done := inCode.(plan := p, plans := acc + [p]);
    assert Step(inCode, EndMarker) == Ok(done);
    assert Run(done, []) == Ok(done);
  }

  /** A plan, then `|`: the plan is complete and the next one starts. */
  lemma NextPlanRun(acc: seq<Plan>, p: Plan, tail: string)
    requires p != [] && AllCRS(p)
    ensures Run(Scan(Init, "", [], acc), PlanText(p) + (['|'] + tail)) == Run(Scan(Init, "", [], acc + [p]), tail)
  {
    var s := Scan(Init, "", [], acc);
    FirstPlanRead(acc, p);
    var inCode := Scan(InCRS, p[|p| - 1], p[..|p| - 1], acc);
    RunAppend(s, PlanText(p), ['|'] + tail);
    RunStep(inCode, '|', tail);
    assert Step(inCode, '|') == Ok(Scan(Init, "", [], acc + [p]));
  }

  /** The text of plans ends with an upper-case letter. */
  lemma {:induction false} PlansTextEnds(ps: seq<Plan>)
    requires ps != [] && GoodPlans(ps)
    ensures |PlansText(ps)| > 0 && IsUpper(PlansText(ps)[|PlansText(ps)| - 1])
    decreases |ps|
  {
    if |ps| == 1 {
      PlanTextEnds(ps[0]);
    } else {
      var rest := ps[1..];
      assert GoodPlans(rest) by {
        assert forall k :: 0 <= k < |rest| ==> rest[k] == ps[k + 1];
      }
      PlansTextEnds(rest);
    }
  }

  lemma {:induction false} PlanTextEnds(p: Plan)
    requires p != [] && AllCRS(p)
    ensures |PlanText(p)| > 0 && IsUpper(PlanText(p)[|PlanText(p)| - 1])
    decreases |p|
  {
    assert IsCRS(p[0]);
    if |p| == 1 {
      assert PlanText(p) == p[0];
    } else {
      var rest := p[1..];
      assert AllCRS(rest) by {
        assert forall k :: 0 <= k < |rest| ==> rest[k] == p[k + 1];
      }
      PlanTextEnds(rest);
      assert PlanText(p) == p[0] + " " + PlanText(rest);
    }
  }

  /** A written plan line reads back as the same origin, destination and
      plans. */
  lemma PlanLineRoundTrip(o: CRSCode, d: CRSCode, ps: seq<Plan>)
    requires IsCRS(o) && IsCRS(d) && ps != [] && GoodPlans(ps)
    ensures ParsePlanLine(PlanLineText(o, d, ps)) == Ok(PlanList(o, d, ps))
  {
    var body := PlansText(ps);
    PlansTextEnds(ps);
    assert IsUpper(o[0]) && IsUpper(o[1]);
    LineShape(o, d, body);
    PlansRun([], ps);
    assert [] + ps == ps;
  }

  /** The marked form of `o + d + ":" + body` for codes and a body ending in
      a letter. */
  lemma LineShape(o: string, d: string, body: string)
    requires |o| == 3 && |d| == 3 && IsUpper(o[0]) && IsUpper(o[1])
    requires body != [] && IsUpper(body[|body| - 1])
    ensures var m := Marked(o + d + ":" + body);
            !IsComment(m) && |m| >= 7 && m[6] == ':' && m[7..] == body + [EndMarker]
            && m[..3] == o && m[3..6] == d
  {
    var line := o + d + ":" + body;
    TrimIdentity(line);
    var m := line + [EndMarker];
    assert m[7..] == body + [EndMarker];
    assert m[..3] == o && m[3..6] == d;
  }

  /** Loading a written plan line stores exactly its plans for the pair and
      leaves every other entry as it was. */
  lemma StoreLineRoundTrip(table: map<CRSCode, map<CRSCode, seq<Plan>>>, o: CRSCode, d: CRSCode, ps: seq<Plan>)
    requires IsCRS(o) && IsCRS(d) && ps != [] && GoodPlans(ps)
    ensures StoreLine(table, PlanLineText(o, d, ps)) == Put2(table, o, d, ps)
    ensures Entry(StoreLine(table, PlanLineText(o, d, ps)), o, d) == ps
  {
    PlanLineRoundTrip(o, d, ps);
  }
}
