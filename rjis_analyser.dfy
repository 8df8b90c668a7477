/** The survey of the RJIS fares directory (`RJISAnalyser`): which file-set
    number each `RJFAF` file belongs to, how many files each set holds, and
    the file name to open for each record type. The directory listing and the
    current directory are parameters. */
module RJISFileSets {
  import opened Wrappers
  import opened Text
  import opened Ordered

  /** The file extensions of a fares feed, plus `AGS`, which is not part of RJIS. */
  const ValidExtensions: set<string> := {
    "DAT", "DIS", "FFL", "FNS", "FRR", "FSC", "LOC", "NDF",
    "NFO", "RCM", "RLC", "RST", "RTE", "SUP", "TAP", "TCL",
    "TJS", "TOC", "TPB", "TPK", "TPN", "TRR", "TSP", "TTY", "TVL", "AGS" }

  /** `GetSetNumberFromFilename`: the three digits at columns 5-7 (as in
      `RJFAF123.FFL`), or -1 when the name is shorter than 8 or they are not
      all digits. */
  function GetSetNumberFromFilename(filename: string): (r: int)
    ensures r == -1 <==> !(|filename| >= 8 && AllDigits(filename[5..8]))
    ensures r != -1 ==> 0 <= r <= 999 && r == DecimalValue(filename[5..8])
  {
    if |filename| >= 8 && IsDigit(filename[5]) && IsDigit(filename[6]) && IsDigit(filename[7]) then
      ThreeDigitValue(filename[5..8]);
      100 * DigitValue(filename[5]) + 10 * DigitValue(filename[6]) + DigitValue(filename[7])
    else
      assert |filename| >= 8 ==> filename[5..8][0] == filename[5] && filename[5..8][1] == filename[6] && filename[5..8][2] == filename[7];
      -1
  }

  lemma ThreeDigitValue(d: string)
    requires |d| == 3 && AllDigits(d)
    ensures DecimalValue(d) == 100 * DigitValue(d[0]) + 10 * DigitValue(d[1]) + DigitValue(d[2])
    ensures 0 <= DecimalValue(d) <= 999
  {
    assert [] + [d[0]] == d[..1] && d[..1] + [d[1]] == d[..2] && d[..2] + [d[2]] == d;
    DecimalValueAppend([], d[0]);
    DecimalValueAppend(d[..1], d[1]);
    DecimalValueAppend(d[..2], d[2]);
  }

  /** `GetExtension`: the text after the last `.`, or empty when there is no `.`. */
  function GetExtension(filename: string): (r: string)
    ensures |r| <= |filename| && filename[|filename| - |r|..] == r
    ensures forall i :: 0 <= i < |r| ==> r[i] != '.'
    ensures (exists i :: 0 <= i < |filename| && filename[i] == '.') ==> |r| < |filename| && filename[|filename| - |r| - 1] == '.'
    ensures (forall i :: 0 <= i < |filename| ==> filename[i] != '.') ==> r == ""
  {
    match FindLast(filename, '.')
    case None => ""
    case Some(p) => filename[p + 1..]
  }

  /** The extension (upper-cased) and set number of a file the survey
      counts: one with a set number and a valid extension. */
  function CountedFile(filename: string): (r: Option<(string, int)>)
    ensures r.Some? ==> r.value.0 in ValidExtensions && 0 <= r.value.1 <= 999
  {
    var n := GetSetNumberFromFilename(filename);
    if n == -1 then None
    else
      var ext := MakeUpper(GetExtension(filename));
      if ext in ValidExtensions then Some((ext, n)) else None
  }

  /** The set numbers of the counted files, in directory order. */
  function CountedSets(filenames: seq<string>): (r: seq<int>)
  {
    if filenames == [] then []
    else
      var c := CountedFile(filenames[|filenames| - 1]);
      CountedSets(filenames[..|filenames| - 1]) + (if c.Some? then [c.value.1] else [])
  }

  /** `rjisfilemap_[n]++`: a missing count starts at 0. */
  function Increment(counts: seq<(int, int)>, n: int): (r: seq<(int, int)>)
    requires Sorted(counts, IntLess)
    ensures Sorted(r, IntLess)
  {
    IntLessIsOrder();
    Put(counts, IntLess, n, Lookup(counts, n).GetOr(0) + 1)
  }

  /** The count after one file: incremented for a counted file. */
  function CountFile(counts: seq<(int, int)>, filename: string): (r: seq<(int, int)>)
    requires Sorted(counts, IntLess)
    ensures Sorted(r, IntLess)
  {
    var c := CountedFile(filename);
    if c.None? then counts else Increment(counts, c.value.1)
  }

  /** `rjistypemap_[ext] = setnumber` for a counted file. */
  function RecordType(types: map<string, int>, filename: string): map<string, int>
  {
    var c := CountedFile(filename);
    if c.None? then types else types[c.value.0 := c.value.1]
  }

  /** `rjisfilemap_` after the files: set number -> files counted, in set order. */
  function FileCounts(filenames: seq<string>): (r: seq<(int, int)>)
    ensures Sorted(r, IntLess)
  {
    if filenames == [] then []
    else CountFile(FileCounts(filenames[..|filenames| - 1]), filenames[|filenames| - 1])
  }

  /** `rjistypemap_` after the files: extension -> set number of the last such file. */
  function TypeSets(filenames: seq<string>): (r: map<string, int>)
  {
    if filenames == [] then map[]
    else RecordType(TypeSets(filenames[..|filenames| - 1]), filenames[|filenames| - 1])
  }

  /** Each set's count is the number of counted files with that set number,
      and only sets with a counted file appear. */
  lemma {:induction false} FileCountsCount(filenames: seq<string>, n: int)
    ensures Lookup(FileCounts(filenames), n).GetOr(0) == multiset(CountedSets(filenames))[n]
    ensures n in Keys(FileCounts(filenames)) <==> n in CountedSets(filenames)
  {
    if filenames != [] {
      var init, last := filenames[..|filenames| - 1], filenames[|filenames| - 1];
      FileCountsCount(init, n);
      CountFileAt(FileCounts(init), last, n);
    }
  }

  /** Counting one file adds one to its own set's count and changes no other. */
  lemma CountFileAt(counts: seq<(int, int)>, filename: string, n: int)
    requires Sorted(counts, IntLess)
    ensures var hit := CountedFile(filename).Some? && CountedFile(filename).value.1 == n;
            Lookup(CountFile(counts, filename), n).GetOr(0) == Lookup(counts, n).GetOr(0) + (if hit then 1 else 0) &&
            (n in Keys(CountFile(counts, filename)) <==> n in Keys(counts) || hit)
  {
  }

  /** Every set number recorded for an extension is that of a counted file. */
  lemma {:induction false} TypeSetsInRange(filenames: seq<string>)
    ensures forall ext :: ext in TypeSets(filenames) ==> ext in ValidExtensions && 0 <= TypeSets(filenames)[ext] <= 999
  {
    if filenames != [] {
      TypeSetsInRange(filenames[..|filenames| - 1]);
    }
  }

  /** The last counted file with a given extension decides its set number. */
  lemma {:induction false} LastFileWins(filenames: seq<string>, i: nat)
    requires i < |filenames| && CountedFile(filenames[i]).Some?
    requires forall j :: i < j < |filenames| ==> CountedFile(filenames[j]).None? || CountedFile(filenames[j]).value.0 != CountedFile(filenames[i]).value.0
    ensures CountedFile(filenames[i]).value.0 in TypeSets(filenames)
    ensures TypeSets(filenames)[CountedFile(filenames[i]).value.0] == CountedFile(filenames[i]).value.1
  {
    var init := filenames[..|filenames| - 1];
    if i < |filenames| - 1 {
      assert init[i] == filenames[i];
      LastFileWins(init, i);
    }
  }

  /** Each count followed by the separator: the string `GetFileSetsAsString`'s loop builds. */
  function Terminated(items: seq<string>, sep: string): (r: string)
  {
    if items == [] then "" else Terminated(items[..|items| - 1], sep) + items[|items| - 1] + sep
  }

  /** Cutting the last separator off the terminated list gives the list joined
      by the separator. */
  lemma {:induction false} TerminatedIsJoin(items: seq<string>, sep: string)
    requires items != []
    ensures |Terminated(items, sep)| >= |sep|
    ensures Terminated(items, sep)[..|Terminated(items, sep)| - |sep|] == Join(items, sep)
  {
    var init, last := items[..|items| - 1], items[|items| - 1];
    assert items == init + [last];
    if |items| > 1 {
      TerminatedIsJoin(init, sep);
      JoinSnoc(init, last, sep);
      var t := Terminated(init, sep);
      assert Terminated(items, sep) == t + last + sep;
      assert (t + last + sep)[..|t| + |last|] == t + last;
      assert t == t[..|t| - |sep|] + sep;
    } else {
      assert Terminated(items, sep) == "" + last + sep;
      assert (last + sep)[..|last|] == last;
    }
  }

  lemma {:induction false} JoinSnoc(items: seq<string>, last: string, sep: string)
    requires items != []
    ensures Join(items + [last], sep) == Join(items, sep) + sep + last
  {
    if |items| > 1 {
      assert (items + [last])[1..] == items[1..] + [last];
      JoinSnoc(items[1..], last, sep);
    } else {
      assert (items + [last])[1..] == [last];
    }
  }

  /** The counts of the sets, in set order, as `std::to_string` writes them. */
  function CountTexts(counts: seq<(int, int)>): (r: seq<string>)
    ensures |r| == |counts|
  {
    seq(|counts|, i requires 0 <= i < |counts| => FormatInt(counts[i].1))
  }

  /** One more file of the listing extends the survey of the files before it. */
  lemma SurveySnoc(filenames: seq<string>, i: nat)
    requires i < |filenames|
    ensures FileCounts(filenames[..i + 1]) == CountFile(FileCounts(filenames[..i]), filenames[i])
    ensures TypeSets(filenames[..i + 1]) == RecordType(TypeSets(filenames[..i]), filenames[i])
  {
    assert filenames[..i + 1][..i] == filenames[..i];
  }

  /** The constructor's loop body: count one file and record its extension's set. */
  method SurveyFile(counts: seq<(int, int)>, types: map<string, int>, filename: string)
    returns (counts': seq<(int, int)>, types': map<string, int>)
    requires Sorted(counts, IntLess)
    ensures counts' == CountFile(counts, filename)
    ensures types' == RecordType(types, filename)
  {
    counts', types' := counts, types;
    var setnumber := GetSetNumberFromFilename(filename);
    if setnumber != -1 {
      var ext := MakeUpper(GetExtension(filename));
      if ext in ValidExtensions {
        counts' := Increment(counts, setnumber);
        types' := types[ext := setnumber];
      }
      assert CountedFile(filename) == if ext in ValidExtensions then Some((ext, setnumber)) else None by {
        CountedFileIs(filename, setnumber, ext);
      }
    }
  }

  /** A file with a set number is counted exactly when its upper-cased
      extension is valid. */
  lemma CountedFileIs(filename: string, setnumber: int, ext: string)
    requires setnumber == GetSetNumberFromFilename(filename) != -1
    requires ext == MakeUpper(GetExtension(filename))
    ensures CountedFile(filename) == if ext in ValidExtensions then Some((ext, setnumber)) else None
  {
  }

  class RJISAnalyser {
    /** `rjisfilemap_`: set number -> files counted, in set order. */
    var fileCounts: seq<(int, int)>
    /** `rjistypemap_`: upper-cased extension -> set number. */
    var typeSets: map<string, int>

    ghost predicate Valid()
      reads this
    {
      Sorted(fileCounts, IntLess) && forall ext :: ext in typeSets ==> 0 <= typeSets[ext] <= 999
    }

    /** The survey of the `RJFAF*` files of the directory, given in the order
        the directory listing returns them (directories excluded). */
    constructor (filenames: seq<string>)
      ensures fileCounts == FileCounts(filenames) && typeSets == TypeSets(filenames)
      ensures Valid()
    {
      var counts: seq<(int, int)> := [];
      var types: map<string, int> := map[];
      var i := 0;
      while i < |filenames|
        invariant 0 <= i <= |filenames|
        invariant counts == FileCounts(filenames[..i]) && types == TypeSets(filenames[..i])
      {
        SurveySnoc(filenames, i);
        counts, types := SurveyFile(counts, types, filenames[i]);
        i := i + 1;
      }
      assert filenames[..i] == filenames;
      TypeSetsInRange(filenames);
      fileCounts := counts;
      typeSets := types;
    }

    /** `GetNumberOfFilesInSet`: 0 for a set with no counted file. */
    function GetNumberOfFilesInSet(fileSet: int): (r: int)
      reads this
      ensures fileSet !in Keys(fileCounts) ==> r == 0
      ensures fileSet in Keys(fileCounts) ==> (fileSet, r) in fileCounts
    {
      Lookup(fileCounts, fileSet).GetOr(0)
    }

    function GetNumberOfSets(): (r: nat)
      reads this
      requires Valid()
      ensures r == |Keys(fileCounts)|
    {
      KeysOfSortedHaveSize(fileCounts);
      |fileCounts|
    }

    /** `GetFileSetsAsString`: the counts in set order, separated by `", "`. */
    method GetFileSetsAsString() returns (r: string)
      ensures r == Join(CountTexts(fileCounts), ", ")
    {
      var items := CountTexts(fileCounts);
      var result := "";
      var separator := ", ";
      var i := 0;
      while i < |fileCounts|
        invariant 0 <= i <= |fileCounts|
        invariant result == Terminated(items[..i], separator)
      {
        assert items[..i + 1][..i] == items[..i];
        result := result + FormatInt(fileCounts[i].1) + separator;
        i := i + 1;
      }
      assert items[..i] == items;
      if |result| >= |separator| {
        r := result[..|result| - |separator|];
        TerminatedIsJoin(items, separator);
      } else {
        // the unsigned length difference wraps and `substr` takes the whole (empty) string
        r := result;
      }
    }

    /** `GetSetNumber`: the set number recorded for the upper-cased extension, or -1. */
    function GetSetNumber(s: string): (r: int)
      reads this
      ensures MakeUpper(s) in typeSets ==> r == typeSets[MakeUpper(s)]
      ensures MakeUpper(s) !in typeSets ==> r == -1
    {
      var ext := MakeUpper(s);
      if ext in typeSets then typeSets[ext] else -1
    }

    /** `GetFilename`: the path of the file of that type, or empty when no
        such file was counted. */
    function GetFilename(ext: string, currentDirectory: string): (r: string)
      reads this
      requires Valid() && currentDirectory != []
      ensures MakeUpper(ext) !in typeSets ==> r == ""
      ensures MakeUpper(ext) in typeSets ==>
        Ok(r) == MakeRJISFilename(typeSets[MakeUpper(ext)], MakeUpper(ext), currentDirectory)
    {
      var e := MakeUpper(ext);
      if e !in typeSets then ""
      else MakeRJISFilename(typeSets[e], e, currentDirectory).value
    }
  }

  lemma {:induction false} KeysOfSortedHaveSize(s: seq<(int, int)>)
    requires Sorted(s, IntLess)
    ensures |Keys(s)| == |s|
  {
    if s != [] {
      KeysOfSortedHaveSize(s[1..]);
      KeysCons(s[0], s[1..]);
      assert s == [s[0]] + s[1..];
      assert s[0].0 !in Keys(s[1..]) by {
        forall j | 0 <= j < |s[1..]| ensures s[1..][j].0 != s[0].0 {
          assert IntLess(s[0].0, s[j + 1].0);
        }
      }
    }
  }

  /** The file name stem of a set and type: `RJFAF`, the set number in three
      digits, and `.ext` when there is an extension. */
  function RJISBaseName(rjisSetNumber: int, ext: string): string
  {
    "RJFAF" + ZeroPadded(rjisSetNumber, 3) + (if ext == "" then "" else "." + ext)
  }

  /** `MakeRJISFilename`: an error outside 0..999, otherwise the current
      directory, given a trailing backslash only when it lacks one,
      followed by the base name. */
  function MakeRJISFilename(rjisSetNumber: int, ext: string, currentDirectory: string): (r: Result<string, string>)
    requires currentDirectory != []
    ensures r.Err? <==> rjisSetNumber < 0 || rjisSetNumber > 999
    ensures r.Ok? && currentDirectory[|currentDirectory| - 1] == '\\' ==> r.value == currentDirectory + RJISBaseName(rjisSetNumber, ext)
    ensures r.Ok? && currentDirectory[|currentDirectory| - 1] != '\\' ==> r.value == currentDirectory + "\\" + RJISBaseName(rjisSetNumber, ext)
  {
    if rjisSetNumber < 0 || rjisSetNumber > 999 then
      Err("Cannot make RJIS filename from integer " + FormatInt(rjisSetNumber) + " (Must be from 0 to 999)")
    else
      var dir := if currentDirectory[|currentDirectory| - 1] != '\\' then currentDirectory + "\\" else currentDirectory;
      Ok(dir + RJISBaseName(rjisSetNumber, ext))
  }

  /** The full file name made for an extension without a dot has that
      extension, whatever dots the current directory holds. */
  lemma MadeFilenameExtension(rjisSetNumber: int, ext: string, currentDirectory: string)
    requires 0 <= rjisSetNumber <= 999 && currentDirectory != []
    requires ext != [] && forall i :: 0 <= i < |ext| ==> ext[i] != '.'
    ensures GetExtension(MakeRJISFilename(rjisSetNumber, ext, currentDirectory).value) == ext
  {
    var dir := if currentDirectory[|currentDirectory| - 1] != '\\' then currentDirectory + "\\" else currentDirectory;
    var digits := ZeroPadded(rjisSetNumber, 3);
    BaseNameSplit(rjisSetNumber, ext, digits);
    var a := "RJFAF" + digits;
    var name := MakeRJISFilename(rjisSetNumber, ext, currentDirectory).value;
    assert name == dir + (a + "." + ext);
    assert dir + (a + "." + ext) == (dir + a) + "." + ext;
    ExtensionAfterLastDot(dir + a, ext);
  }

  /** A file name made for a set and an extension without a dot is surveyed
      back as that set, with that extension. */
  lemma BaseNameRoundTrip(rjisSetNumber: int, ext: string)
    requires 0 <= rjisSetNumber <= 999 && ext != [] && forall i :: 0 <= i < |ext| ==> ext[i] != '.'
    ensures GetSetNumberFromFilename(RJISBaseName(rjisSetNumber, ext)) == rjisSetNumber
    ensures GetExtension(RJISBaseName(rjisSetNumber, ext)) == ext
  {
    var digits := ZeroPadded(rjisSetNumber, 3);
    ZeroPaddedRoundTrip(rjisSetNumber, 3);
    BaseNameSplit(rjisSetNumber, ext, digits);
    RoundTripOfParts(digits, ext);
  }

  lemma BaseNameSplit(rjisSetNumber: int, ext: string, digits: string)
    requires ext != [] && digits == ZeroPadded(rjisSetNumber, 3)
    ensures RJISBaseName(rjisSetNumber, ext) == ("RJFAF" + digits) + "." + ext
  {
  }

  lemma RoundTripOfParts(digits: string, ext: string)
    requires |digits| == 3 && AllDigits(digits) && forall i :: 0 <= i < |ext| ==> ext[i] != '.'
    ensures GetSetNumberFromFilename(("RJFAF" + digits) + "." + ext) == DecimalValue(digits)
    ensures GetExtension(("RJFAF" + digits) + "." + ext) == ext
  {
    var stem := "RJFAF" + digits;
    assert stem + "." + ext == "RJFAF" + digits + ("." + ext);
    SetNumberOfStem(digits, "." + ext);
    ExtensionAfterLastDot(stem, ext);
  }

  /** Three digits after `RJFAF` are read back as the set number, whatever follows. */
  lemma SetNumberOfStem(digits: string, rest: string)
    requires |digits| == 3 && AllDigits(digits)
    ensures GetSetNumberFromFilename("RJFAF" + digits + rest) == DecimalValue(digits)
  {
    var name := "RJFAF" + digits + rest;
    assert name[5..8] == digits;
  }

  /** The extension of `stem.ext` is `ext` when `ext` holds no dot. */
  lemma ExtensionAfterLastDot(stem: string, ext: string)
    requires forall i :: 0 <= i < |ext| ==> ext[i] != '.'
    ensures GetExtension(stem + "." + ext) == ext
  {
    var name := stem + "." + ext;
    assert name[|stem|] == '.';
    assert name[|stem| + 1..] == ext;
  }
}
