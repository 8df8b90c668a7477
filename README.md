# pf3 fare engine — a Dafny model

pf3 answers UK rail fare queries from the RJIS fares feed (RSPS5045). At
start-up it surveys the fares directory for one RJIS file set, loads each
fixed-width file line by line into in-memory tables (flows, fare lines,
non-derivable fares and their overrides, railcards, ticket types, standard
and non-standard discounts, locations, clusters, groups, plusbus data,
restrictions), builds two position indices over the non-standard discounts
and drops the flows that have no fares. A fare request names an origin, a
destination and a railcard. The engine expands each end into its related
codes (fare groups, county, travelcard zone, groups, auxiliary groups,
clusters), merges the non-derivable fares of every candidate flow with their
override and suppression records, prices every fare line with a standard
discount or the best-matching non-standard discount (scored on wildcard
matches of route, railcard and ticket), applies the 5p rounding rule, and
collects the results by flow, route, flow id and discount indicator. It also
finds the plusbus add-on prices of a journey. Around this engine sit the
generator of the per-station filtered file sets, the RSPS5046 timetable
record types, the journey-plan file reader, and a small web front end that
reads request headers, splits the query string and serves files by MIME
type.

The model follows the program's own structure, one module per source file
where practical:

- `Wrappers`, `Text`, `Ordered`, `RJISDate` and `Codes` are the library
  layer. They cover options and results, character classes and padded
  numbers, the `std::string` order and `std::map` as sorted association
  lists, dates, and the fixed-width codes.
- `RJISTypes` holds the records with their decoders and encoders, and
  `RJISMaps` holds the record store.
- `LineParsers` holds the per-line loaders, `RJISFileSets` the directory
  survey, and `Startup` the post-load checks, indices and pruning.
- `RelatedStations` and `ActiveStationSets` cover station expansion, the
  active set and the filtered sets.
- `FareResults`, `FareLookups`, `NonStandardDiscounts`, `NDFMerge` and
  `FareEngine` form the fare engine.
- `TTTypes`, `JourneyPlanner`, `MimeTypes` and `HTTPManager` cover the
  timetable records, the plan files and the web front end.

Operations that loop or update state are methods with loop invariants. Each
such method is proved equal to a specification function. The program's
promises are proved as lemmas about those functions: round trips of the
encoders, first-valid and best-match tie-breaks, override and suppression
order, growth-only updates, and error cases.

Three behaviours of the code that a reader might not expect are modelled
as written:

- The `(route, ticket)` index of `ProcessNDFs` keeps the FIRST NDF for a
  key, because it uses `map::insert`.
- In the non-standard path of `ProcessFareEntry`, the child fare's
  `X`/`D`/blank branches test the ADULT flag.
- The plusbus `PBD` test compares the adult price with 9999999, not the
  99999999 used elsewhere.

## Model

| member | source | states |
|---|---|---|
| Text.MakeUpper | pf3/HTTPManager.cpp:270-272 | `ams::MakeUpper`: same length, each lower-case letter upper-cased and every other character kept |
| Text.MakeLower | pf3/mimetypesmap.cpp:65 | `ams::MakeLower`: same length, each upper-case letter lower-cased and every other character kept |
| Text.TrimLeft | pf3/HTTPManager.cpp:96 | removes exactly the leading whitespace: the result is a suffix, every removed character is a space and the first kept one is not |
| Text.TrimRight | pf3/HTTPManager.cpp:96 | removes exactly the trailing whitespace, symmetrically |
| Text.Trim | pf3/HTTPManager.cpp:96 | a trimmed line, when not empty, neither starts nor ends with whitespace |
| Text.TrimIdentity | pf3/HTTPManager.cpp:96 | trimming a line that has no outer whitespace leaves it unchanged |
| Text.FindFrom | pf3/HTTPManager.cpp:21-24 | `find(c, from)`: the first position at or after `from` holding `c`, or none when no such position exists |
| Text.FindLast | pf3/RJISAnalyser.cpp:31 | `find_last_of`/`rfind` of one character: its last position, or none |
| Text.FindBlankOrNot | pf3/HTTPManager.cpp:116-136 | `find_first_of("\t ")` and `find_first_not_of("\t ")` from a position: the first position that is (is not) a blank, or none |
| Text.ZeroPaddedRoundTrip | pf3/RJISTypes.h:138 | `std::setw(w)` with fill '0' writes a number below 10^w in exactly w digits that read back as the number |
| Text.DecimalValueOfNatDigits | pf3/RJISTypes.h:129 | the decimal text `std::to_string` gives a natural number reads back as that number |
| Ordered.StrLessIsOrder | pf3/RJISTypes.h:399-403 | the string order the map keys compare by is a strict total order |
| Ordered.LookupSorted | pf3/ActiveStations.cpp:28-29 | `std::map::find` on a key-sorted map finds the value stored under every key present |
| Ordered.Lookup | pf3/ActiveStations.cpp:28-29 | `find` fails iff the key is absent, and otherwise yields a stored pair |
| Ordered.AppendAt | pf3/LineParsers.cpp:278-279 | `m[k].push_back(x)`: the map stays sorted, gains key `k`, and `k`'s list is its old list (or empty) with `x` appended |
| Ordered.Put | pf3/ActiveStations.cpp:517 | `m[k] = v`: the map stays sorted, gains key `k`, and `k` maps to `v` |
| Ordered.InsertIfAbsent | pf3/ProcessFareList.cpp:240 | `std::map::insert`: the map stays sorted and gains key `k`; when `k` was present nothing changes |
| Ordered.SetInsert | pf3/ActiveStations.cpp:265 | `std::set::insert`: the set stays sorted and holds exactly its old members and the new one |
| Ordered.EqualRange | pf3/ActiveStations.cpp:288 | `equal_range(k)` on a multimap: exactly the values stored under `k` |
| Ordered.EqualRangeSnoc | pf3/LineParsers.cpp:284 | a multimap insert appends the value to its key's equal range and changes no other key's |
| Codes.Flow.Reverse | pf3/LineParsers.cpp:184 | `UFlow::Reverse` swaps origin and destination |
| Codes.Permute | pf3/ProcessFareList.cpp:826 | `PermuteNLCs`: one flow for every origin and destination pair, and only those |
| Codes.PermuteOrder | pf3/ProcessFareList.cpp:826 | the pairs come origins outermost: the flow of the i-th origin and j-th destination is at position i·\|destinations\| + j |
| RJISDate.DateRoundTrip | pf3/RJISTypes.h:36 | a date in the `DDMMYYYY` layout of RSPS5045 is 8 characters and reads back unchanged |
| RJISDate.RangeRoundTrip | pf3/RJISTypes.h:94 | a date range written end date first reads back unchanged |
| RJISDate.TripleRoundTrip | pf3/RJISTypes.h:36 | an end/start/quote date triple written in 24 characters reads back unchanged |
| ActiveStationSets.DeGroupedIff | pf3/ActiveStations.cpp:21-75 | with declustering, a cluster code stands for exactly its members, each group member replaced by its group's stations and the cluster code itself not inserted; any other code stands for its group's stations, or for itself when it is no group |
| ActiveStationSets.MembersExpansionIff | pf3/ActiveStations.cpp:34-51 | a station is in a cluster's expansion iff some member of the cluster stands for it |
| ActiveStationSets.DeGroupedIgnoresClusters | pf3/ActiveStations.cpp:24-53 | with `decluster` false the cluster table is never consulted: changing it changes nothing |
| ActiveStationSets.DeGroupIndividualStation | pf3/ActiveStations.cpp:21-75 | the set only grows, and grows by exactly the stations the code stands for |
| ActiveStationSets.InsertMembers | pf3/ActiveStations.cpp:37-50 | one group lookup: the group's stations are added, or the code itself when it is no group |
| ActiveStationSets.EndsExpansionIff | pf3/ActiveStations.cpp:89-95 | a station is reached by a table's loop iff some record's origin or destination stands for it |
| ActiveStationSets.ActiveSetIff | pf3/ActiveStations.cpp:86-111 | a station is active iff some flow, NDF or NFO record starts or ends at a code standing for it |
| ActiveStationSets.ExpandEnds | pf3/ActiveStations.cpp:89-95 | the constructor's loop over one table adds the declustered origin and destination of every record |
| ActiveStationSets.ActiveStations.constructor | pf3/ActiveStations.cpp:86-111 | the active set is the union over the flow, NDF and NFO tables |
| ActiveStationSets.ActiveStations.GetList | pf3/ActiveStations.cpp:113-116 | returns a copy of the active set |
| ActiveStationSets.RoutedToIff | pf3/ActiveStations.cpp:241-265 | a record is in a station's file iff it is in the table and its origin stands for the station |
| ActiveStationSets.UsedFlowIdsIff | pf3/ActiveStations.cpp:263-265 | a flow id is recorded for a station iff some flow routed to it has that id |
| ActiveStationSets.UsedFlowIds | pf3/ActiveStations.cpp:231-232 | the recorded ids of a station form a sorted set, as `std::set<int>` iterates |
| ActiveStationSets.EntriesWithKeyIff | pf3/ActiveStations.cpp:287-290 | `equal_range(flowid)` yields exactly the fare records with that id |
| ActiveStationSets.FaresOfIff | pf3/ActiveStations.cpp:276-307 | a fare record is written to a station's file iff its flow id was recorded for the station |
| ActiveStationSets.FareRecordsFollowFlows | pf3/ActiveStations.cpp:229-308 | a station's fare records are exactly those of the flows routed to it |
| ActiveStationSets.RouteFlow | pf3/ActiveStations.cpp:241-272 | one flow record is appended to, and its id recorded for, every station with a file that its origin stands for; other files are unchanged |
| ActiveStationSets.WriteFlowToAll | pf3/ActiveStations.cpp:245-272 | the loop over the origin's stations leaves every station's file and id set updated iff the station is among them |
| ActiveStationSets.WriteFlowTo | pf3/ActiveStations.cpp:248-265 | one station's file gains the record and its id set gains the flow id |
| ActiveStationSets.WriteFlowRecords | pf3/ActiveStations.cpp:234-274 | after the first loop each file holds the flows routed to it, in table order, and each id set is the ids of those flows |
| ActiveStationSets.WriteFareRecords | pf3/ActiveStations.cpp:276-307 | after the second loop each file holds the fare records of its recorded ids, in id order |
| ActiveStationSets.WriteFares | pf3/ActiveStations.cpp:285-306 | the fare records of each id, in turn, are appended to the file |
| ActiveStationSets.WriteFFLFiles | pf3/ActiveStations.cpp:229-308 | every station's FFL file is its routed flows followed by their fare records |
| ActiveStationSets.RouteRecord | pf3/ActiveStations.cpp:329-356 | an NDF or NFO record goes to every station with a file that its origin stands for, degrouped but not declustered |
| ActiveStationSets.WriteToAll | pf3/ActiveStations.cpp:334-356 | the loop over the origin's stations appends the record to exactly those files |
| ActiveStationSets.WriteOriginFiles | pf3/ActiveStations.cpp:318-361 | every station's NDF (and NFO, 371-412) file holds the records routed to it, in table order |
| ActiveStationSets.AddSlashIfMissing | pf3/ActiveStations.cpp:440 | the directory is kept as a prefix and, when not empty, ends in a separator |
| ActiveStationSets.FolderFor | pf3/ActiveStations.cpp:482-517 | a station gets a folder iff it has a location record whose CRS code is three letters; the folder is the set directory, the CRS code, `-` and the NLC, ending in a separator |
| ActiveStationSets.FolderMap | pf3/ActiveStations.cpp:478-524 | the folder map holds exactly the active stations a folder can be named for |
| ActiveStationSets.MakeFolders | pf3/ActiveStations.cpp:478-524 | the folder loop builds that map |
| ActiveStationSets.FilteredSetsOf | pf3/ActiveStations.cpp:431-452 | fails iff the set directory is empty or the active set is empty; otherwise has a set for exactly the stations with a folder |
| ActiveStationSets.RoutingModes | pf3/ActiveStations.cpp:531-547 | in each set: flows routed by declustered origin (243), NDFs and NFOs by degrouped origin only (331, 383), fares exactly those of the set's flows |
| ActiveStationSets.WriteSets | pf3/ActiveStations.cpp:531-547 | the FFL, NDF and NFO files written for each folder are those `FilteredSetsOf` describes |
| ActiveStationSets.ActiveStations.MakeFilteredSets | pf3/ActiveStations.cpp:431-556 | returns the error or the filtered sets as `FilteredSetsOf` states them |
| RJISTypes.NDFEncodeSuppressed | pf3/RJISTypes.h:48-58 | a suppression NFO is written as 58 characters, the last 21 blank |
| RJISTypes.NDFRoundTrip | pf3/RJISTypes.h:30-69 | an NDF/NFO value that is not a suppression and whose composite flag is 'Y' (as every stored NDF's is) is written by `operator<<` and read back by `Set` unchanged |
| RJISTypes.SetFlow | pf3/RJISTypes.h:91-103 | `FFLFlowMainValue::Set`, with its digit loop: each field is taken from its offset and the flowid is the decimal value of the 7 characters at +32 |
| RJISTypes.FlowRoundTrip | pf3/RJISTypes.h:91-103 | a flow value with single-digit indicators and a flowid below 10^7 is written by `operator<<` (133-140) and read back unchanged |
| RJISTypes.DiscountName | pf3/RJISTypes.h:110-130 | the description is empty iff the indicator is not 0-3; 0 and 2 read "standard", 1 and 3 "non-standard"; 0 and 1 end in "rail", 2 and 3 in "private" |
| RJISTypes.GetJSON | pf3/RJISTypes.h:110-130 | the JSON text starts with the route member and ends with the decimal flowid |
| RJISTypes.DecodeFareRecord | pf3/RJISTypes.h:151-156 | ticket code, 8-digit fare in pence and restriction code at +0, +3, +11 |
| RJISTypes.FareRecordRoundTrip | pf3/RJISTypes.h:151-163 | a fare record below 10^8 pence written by `operator<<` reads back unchanged |
| RJISTypes.DecodeTicketType | pf3/RJISTypes.h:202-231 | ticket type at +40 and discount category at +107 |
| RJISTypes.DecodeRailcard | pf3/RJISTypes.h:271-308 | the last valid date is read at +103 only when the validity period at +99 is four spaces, else it is the null date; status codes at +115 and +118 |
| RJISTypes.DecodeSDiscountKey | pf3/RJISTypes.h:555-564 | status code at +0 and discount category at +11 |
| RJISTypes.DecodeSDiscountValue | pf3/RJISTypes.h:577-582 | discount indicator at +10 and a three-digit percentage (tenths of a percent) at +11 |
| RJISTypes.DecodeStatusKey | pf3/RJISTypes.h:603-607 | status code at +0 and end date at +3 |
| RJISTypes.DecodeLocation | pf3/RJISTypes.h:694-704 | CRS code at +47, fare group at +60, county at +66, zone NLC at +70, zone number at +74 |
| RJISTypes.DecodeNSDisc | pf3/RJISTypes.h:756-771 | origin, destination, route, railcard and ticket codes at +0/+4/+8/+13/+16; the adult and child no-discount flags at +47 and +57 |
| RJISTypes.DecodeTR | pf3/RJISTypes.h:418-438 | the TR constructor succeeds iff the 8 time characters at +5 are digits; then each time is 60·HH + MM, between 0 and 6039 minutes |
| RJISTypes.NewRestrictionsTR | pf3/RJISTypes.h:418-438 | the digit-check loop throws at the first non-digit, so its outcome is `DecodeTR`'s |
| RJISTypes.DecodeHD | pf3/RJISTypes.h:447-470 | the HD constructor succeeds iff the 8 characters at +0 are digits; then the range runs from MMDD to MMDD, in the placeholder year 2013 |
| RJISTypes.NewRestrictionsHD | pf3/RJISTypes.h:447-470 | the digit-check loop's outcome is `DecodeHD`'s |
| RJISTypes.DecodeRRKey | pf3/RJISTypes.h:355-359 | current/future marker at +0 and railcard code at +1 |
| RJISTypes.DecodeRR | pf3/RJISTypes.h:376-384 | ticket code at +4, route at +7, restriction code at +15 and total ban flag at +17 |
| RJISTypes.DecodeRestrictionsKey | pf3/RJISTypes.h:393-397 | current/future marker at +0 and restriction code at +1 |
| LineParsers.FlowLineEntries | pf3/LineParsers.cpp:175-186 | a flow record is filed under its flow and, for direction `R` at column 19, also under the reversed flow, with the same value |
| LineParsers.FlowLineBothDirections | pf3/LineParsers.cpp:175-186 | after a flow line with direction `R` the record is found from both ends; after any other only from its own origin, the reversed flow's records unchanged |
| LineParsers.FFLLine | pf3/LineParsers.cpp:170-198 | a flow file line adds flow entries iff it is a flow record (length 49, `RF`, usage not `C`), one fare entry iff it is instead a fare record (length 22, `RT`); earlier entries and every other table are kept |
| LineParsers.FareLineFlowId | pf3/LineParsers.cpp:189-197 | a fare line whose flow id columns are digits is filed under that flow id, below 10^7 |
| LineParsers.AddFFLLine | pf3/LineParsers.cpp:170-198 | the handler, with its flow id digit loop, has exactly the effect `FFLLine` states |
| LineParsers.ClustersLine | pf3/LineParsers.cpp:211-218 | a cluster line appends its date range to `clusters[station][cluster]` and the station to `decluster[cluster]`, leaving every other entry as it was |
| LineParsers.AddClustersLine | pf3/LineParsers.cpp:207-220 | the handler has exactly the effect `ClustersLine` states |
| LineParsers.CountyNLC | pf3/LineParsers.cpp:275-276 | the county group of a county code is `CC` followed by the code |
| LineParsers.AddGroup | pf3/LineParsers.cpp:278-279 | `groups[station][group]` gains the end date 31-12-2999 and the group's member list gains the station; no other station's groups change |
| LineParsers.LocationsLine | pf3/LineParsers.cpp:271-290 | a location line (length 289, `RL70`) stores the location under its NLC and changes only the group tables besides; any other line changes nothing |
| LineParsers.LocationGroupsAdded | pf3/LineParsers.cpp:273-289 | a location line makes the station a member of its county group (when both county characters are alphanumeric) and of its fare group (when it differs from the station) |
| LineParsers.LocationGroupsOthers | pf3/LineParsers.cpp:273-289 | no other group gains or loses a membership |
| LineParsers.LocationOtherStations | pf3/LineParsers.cpp:273-289 | no other station's group table changes |
| LineParsers.AddGroupKeeps | pf3/LineParsers.cpp:278-279 | memberships only accumulate: every group a station had, and every member a group had, remains |
| LineParsers.AddLocationsLine | pf3/LineParsers.cpp:268-300 | the handler has exactly the effect `LocationsLine` states |
| LineParsers.PlusBusNLCLine | pf3/LineParsers.cpp:19-32 | blank and `/` lines are skipped; any other line of length other than 8 is an error; an 8-character line maps its main station to its plusbus NLC and leaves every other mapping |
| LineParsers.PlusBusNLCLaterWins | pf3/LineParsers.cpp:27-31 | when two lines name the same station, the later mapping is the one kept |
| LineParsers.AddPlusBusNLCLine | pf3/LineParsers.cpp:15-34 | the handler succeeds iff `PlusBusNLCLine` does, with its effect, and changes nothing on an error |
| LineParsers.PlusBusRestrictionsLine | pf3/LineParsers.cpp:47-55 | blank and `/` lines are skipped; other lines of length other than 8 are an error; an 8-character line adds its flow to the restriction set |
| LineParsers.AddPlusBusRestrictionsLine | pf3/LineParsers.cpp:43-57 | the handler succeeds iff `PlusBusRestrictionsLine` does, with its effect, and changes nothing on an error |
| LineParsers.TicketTypeLine | pf3/LineParsers.cpp:70-75 | a line of length 113 starting `R` adds its ticket type under its code; any other changes nothing |
| LineParsers.NDFLine | pf3/LineParsers.cpp:89-96 | a line of length 67 starting `R` adds its record under its flow, for the NDF and (112-119) the NFO file; any other changes nothing |
| LineParsers.RailcardLine | pf3/LineParsers.cpp:133-138 | a line of length 127 not starting with a backslash adds its railcard under its code; any other changes nothing |
| LineParsers.AddRailcardMinFaresLine | pf3/LineParsers.cpp:155-159 | a railcard minimum fare line is decoded and nothing is stored |
| LineParsers.NSDiscountsLine | pf3/LineParsers.cpp:231-235 | a line of length 68 starting `R` is appended to the non-standard discount list; any other changes nothing |
| LineParsers.StandardDiscountsLine | pf3/LineParsers.cpp:248-259 | a `D` line of length 18 adds a standard discount, an `S` line of length 99 a status discount; any other changes nothing |
| LineParsers.AuxGroupsLine | pf3/LineParsers.cpp:314-319 | a line of length 9 starting `R` adds the group to the station's auxiliary group set, which stays a sorted set; other stations are untouched |
| LineParsers.RDLine | pf3/LineParsers.cpp:451-465 | a third `RD` record is an error; `C` sets the current restriction period and `F` the future one, read start date first; any other marker changes nothing |
| LineParsers.RRLine | pf3/LineParsers.cpp:418-421 | a railcard restriction record is added under its key |
| LineParsers.TRLine | pf3/LineParsers.cpp:423-426 | a time restriction record is added under its key iff its times are digits, else the constructor's error |
| LineParsers.HDLine | pf3/LineParsers.cpp:429-433 | a holiday date record is added under its key iff its dates are digits, else the constructor's error |
| LineParsers.RestrictionsLine | pf3/LineParsers.cpp:448-478 | one restrictions-file line: the `RD` count grows by one exactly for an `RD` record, a third `RD` is an error, and lines that are not `RD`/`RR`/`TR`/`HD` records change nothing |
| LineParsers.RestrictionsFileRDLimit | pf3/LineParsers.cpp:444-456 | a file with more than two `RD` records is rejected, and a file that loads leaves the count at its number of `RD` records |
| LineParsers.RestrictionsReader.constructor | pf3/LineParsers.cpp:444 | the function-static `RD` count starts at 0 |
| LineParsers.RestrictionsReader.ProcessLine | pf3/LineParsers.cpp:441-479 | the handler has `RestrictionsLine`'s effect on success, changes no table on an error, and counts every `RD` record, even the one it rejects |
| RJISMaps.EmptyTables | pf3/RJISMaps.cpp:5-30 | every table is empty at program start, and the store's invariants hold |
| RJISMaps.Store.constructor | pf3/RJISMaps.cpp:5-30 | the store starts with the empty tables |
| RJISMaps.GetEarliestDateInRange | pf3/RJISMaps.cpp:39-61 | month `m`, day `d` in the range's start year if that date is in the range, else the following year's if that is; it fails iff neither is in the range |
| RJISMaps.AdjustHDRecord | pf3/RJISMaps.cpp:64-100 | an HD record's start and then end date are moved into its period (future for `F` keys, current otherwise); when the end cannot be placed the moved start is kept, when the start cannot be placed nothing changes; its days are kept |
| RJISMaps.AdjustedHD | pf3/RJISMaps.cpp:64-100 | every HD record is adjusted, keys and order unchanged |
| RJISMaps.AdjustHDRecordKeepsPlacedDates | pf3/RJISMaps.cpp:39-61 | a record whose dates already lie in the period's start year keeps them |
| RJISMaps.AdjustAll | pf3/RJISMaps.cpp:64-100 | the loop over the HD table rewrites each record in place as `AdjustedHD` states |
| RJISMaps.Store.AdjustHDRecords | pf3/RJISMaps.cpp:64-100 | only the HD table changes, to `AdjustedHD` of the old one |
| RJISFileSets.GetSetNumberFromFilename | pf3/RJISAnalyser.cpp:10-21 | -1 iff the name is shorter than 8 or columns 5-7 are not all digits; otherwise the three-digit set number, 0-999 |
| RJISFileSets.GetExtension | pf3/RJISAnalyser.cpp:29-38 | the text after the last `.`, which holds no `.`; empty when the name has no `.` |
| RJISFileSets.CountedFile | pf3/RJISAnalyser.cpp:52-64 | a file is counted only with a set number and an upper-cased extension in the valid set (5-8) |
| RJISFileSets.FileCountsCount | pf3/RJISAnalyser.cpp:40-70 | each set's count is the number of counted files with that set number, and only sets with a counted file appear |
| RJISFileSets.TypeSetsInRange | pf3/RJISAnalyser.cpp:59-63 | every recorded extension is a valid one with a set number in 0-999 |
| RJISFileSets.LastFileWins | pf3/RJISAnalyser.cpp:63 | the last counted file with an extension decides that extension's set number |
| RJISFileSets.RJISAnalyser.constructor | pf3/RJISAnalyser.cpp:40-70 | the survey loop over the directory's `RJFAF*` files builds exactly `FileCounts` and `TypeSets` |
| RJISFileSets.RJISAnalyser.GetNumberOfFilesInSet | pf3/RJISAnalyser.h:19-28 | the count recorded for the set, or 0 when the set has none |
| RJISFileSets.RJISAnalyser.GetNumberOfSets | pf3/RJISAnalyser.h:42-45 | the number of distinct set numbers counted |
| RJISFileSets.RJISAnalyser.GetFileSetsAsString | pf3/RJISAnalyser.h:30-40 | the counts in set order joined by `", "`: the loop's separator-terminated text with the last separator cut off |
| RJISFileSets.TerminatedIsJoin | pf3/RJISAnalyser.h:34-39 | cutting the final separator off a separator-terminated list gives the list joined by the separator |
| RJISFileSets.RJISAnalyser.GetSetNumber | pf3/RJISAnalyser.h:50-64 | the set number recorded for the upper-cased extension, or -1 |
| RJISFileSets.RJISAnalyser.GetFilename | pf3/RJISAnalyser.h:66-82 | empty when no file of the upper-cased type was counted, else `MakeRJISFilename` of its set |
| RJISFileSets.MakeRJISFilename | pf3/RJISAnalyser.h:84-103 | an error iff the set number is outside 0-999; otherwise the current directory, with a backslash added only when it does not already end in one, followed by `RJFAF`, the three-digit set and the extension |
| RJISFileSets.MadeFilenameExtension | pf3/RJISAnalyser.h:84-103 | a made file name reads back with its extension, whatever dots the current directory holds |
| RJISFileSets.BaseNameRoundTrip | pf3/RJISAnalyser.h:99-101 | a file name made for a set and an extension is surveyed (RJISAnalyser.cpp:10-38) back as that set and extension |
| Startup.CheckFileSets | pf3/pf3.cpp:56-68 | start-up goes on iff there is exactly one set, or two where the NDF file's set holds exactly one file |
| Startup.NSDIndexExactlyOnce | pf3/pf3.cpp:147-151 | in a freshly built index every discount record is found exactly once, under its own origin (or destination) only |
| Startup.NSDIndexAbove | pf3/pf3.cpp:147-151 | no index entry points past the end of the table |
| Startup.IndexLoop | pf3/pf3.cpp:147-151 | the loop appends one origin and one destination entry per discount record, in table order |
| Startup.BuildNSDIndices | pf3/pf3.cpp:147-151 | only the two indices change, each extended by `NSDIndex` of the table |
| Startup.PrunedKeepsExactly | pf3/pf3.cpp:153-164 | pruning keeps every copy of a flow record whose flow id has a fare record and no copy of any other |
| Startup.PrunedEqualRange | pf3/pf3.cpp:153-164 | under each flow the records left are those with fares, in their order |
| Startup.PruneLoop | pf3/pf3.cpp:154-164 | the erase loop leaves exactly `Pruned` of the flow table |
| Startup.PruneFlows | pf3/pf3.cpp:153-164 | only the flow table changes, to `Pruned` of the old one |
| RelatedStations.AddStationToSet | pf3/RelatedStations.h:17-20 | `AddStation` into a set adds the code, and nothing when it is already there |
| RelatedStations.LocationCodes | pf3/RelatedStations.h:36-51 | an applicable location record adds its county code, then its fare group when that is not the station, then its zone NLC when the zone number is 1-6 |
| RelatedStations.DatesPart | pf3/RelatedStations.h:62-68 | a group is added only as itself |
| RelatedStations.DatesPartCount | pf3/RelatedStations.h:62-68 | a group is added once per stored end date not before today |
| RelatedStations.GroupsPartCount | pf3/RelatedStations.h:55-70 | each group appears once per current membership end date: memberships are counted, not collapsed |
| RelatedStations.GetRelatedStations | pf3/RelatedStations.h:22-81 | appends the location codes, then the current groups, then the auxiliary groups, to the container |
| RelatedStations.AddLocationCodes | pf3/RelatedStations.h:29-53 | the loop over the station's location records appends what `LocationsPart` states |
| RelatedStations.AddLocation | pf3/RelatedStations.h:32-52 | one location record adds its codes only when dates are not checked or it was quotable today, began by the travel date and has not ended before today |
| RelatedStations.AddGroups | pf3/RelatedStations.h:55-70 | the nested loop over groups and end dates appends `GroupsPart` |
| RelatedStations.RelatedContains | pf3/RelatedStations.h:22-81 | the expansion holds the county code of every applicable location record, every group with a current end date and every auxiliary group |
| RelatedStations.RangesPart | pf3/RelatedStations.h:105-112 | a cluster is added only as itself |
| RelatedStations.RangesPartCount | pf3/RelatedStations.h:105-112 | a cluster is added once per membership range holding the date |
| RelatedStations.EntryCount | pf3/RelatedStations.h:100-117 | one membership entry adds its cluster once per covering range with date checks, once without |
| RelatedStations.ClusterPartCount | pf3/RelatedStations.h:96-119 | for one station, each cluster appears once per covering range when dates are checked, once when not, and not at all when the station is no member |
| RelatedStations.AddClusters | pf3/RelatedStations.h:87-121 | the stations are a copy: the clusters of the list as it was are appended, and appended clusters are not expanded themselves |
| RelatedStations.AddStationClusters | pf3/RelatedStations.h:96-119 | the loop over one station's clusters and ranges appends `ClusterPart` |
| FareResults.FlowLessIsOrder | pf3/ProcessFareList.h:25-29 | flows, compared by origin and then destination, are strictly and totally ordered, so they can key a `std::map` |
| FareResults.NDFKeyLessIsOrder | pf3/ProcessFareList.h:25-29 | the lexicographic comparison of (flow, route, railcard, ticket code) is a strict total order |
| FareResults.SortedKeysDistinct | pf3/ProcessFareList.h:91-92 | a map kept in the order of a strict total order holds no key twice |
| FareResults.NDFResultsOnePerKey | pf3/ProcessFareList.h:92 | the NDF results hold at most one value for each (flow, route, railcard, ticket code) |
| FareResults.MakeFoundFareKey | pf3/ProcessFareList.h:51-53 | the constructor takes the discount indicator before the flowid and stores each in its own field |
| FareResults.FareKeyLessIsOrder | pf3/ProcessFareList.h:55-59 | the comparison of (flow, route, flowid, discount indicator) is a strict total order |
| FareResults.AddFare | pf3/ProcessFareList.cpp:476 | pushing a fare under a key appends it to that key's fares (an absent key starts empty); the map stays ordered, gains only that key, and every other key's fares are unchanged |
| FareResults.NewFoundPlusBus | pf3/ProcessFareList.h:81-89 | a new plusbus result is not valid and holds no fares |
| FareResults.NewFareSearchParams | pf3/FareSearchParams.h:16-35 | the request carries the given stations, railcard and dates, with route and ticket code cleared to match anything and no recalculation |
| FareResults.NewFareSearchParamsToday | pf3/FareSearchParams.h:16-22 | with the date arguments defaulted, all three dates are today |
| FareLookups.Rounding | pf3/ProcessFareList.cpp:43-47 | the discounted price, computed in wrapping 32-bit unsigned arithmetic, is a multiple of 5 and never larger than 2^32/1000 + 5 |
| FareLookups.RoundingNoWrap | pf3/ProcessFareList.cpp:43-47 | when the product fits in 32 bits the result is the exact discounted price rounded up to the penny, then rounded to 5 |
| FareLookups.RoundingNearest | pf3/ProcessFareList.cpp:43-47 | when nothing wraps the result is a multiple of 5 nearest the price rounded up to the penny, within 2p of it |
| FareLookups.NearestFive | pf3/ProcessFareList.cpp:46 | `(c + 2) / 5 * 5` is a multiple of 5 at least as close to `c` as any other, rounding 2 down and 3 up |
| FareLookups.GetMatchQuality | pf3/ProcessFareList.cpp:50-97 | the result is -1 exactly when the route, railcard or ticket code differs from a record field that is not a wildcard; otherwise it adds 4, 2 and 1 for exact route, railcard and ticket matches |
| FareLookups.FirstWhereIff | pf3/ProcessFareList.cpp:321-328 | a scan that stops at the first accepted record finds one exactly when one exists, and no earlier record is accepted |
| FareLookups.FindFirst | pf3/ProcessFareList.cpp:319-329 | the loop returns the first record of the sequence that passes the test, or nothing |
| FareLookups.GetRailcardEntry | pf3/ProcessFareList.cpp:317-330 | the result is the first record under the request's railcard whose dates are valid for the query and travel dates |
| FareLookups.GetTicketTypeEntry | pf3/ProcessFareList.cpp:332-345 | the result is the first record under the ticket code whose dates are valid for the query and travel dates |
| FareLookups.GetStandardDiscount | pf3/ProcessFareList.cpp:347-365 | the percentage is that of the first record under (status, category) that ends on or after the travel date; not found when none does |
| FareLookups.StandardDiscountFirstValid | pf3/ProcessFareList.cpp:353-364 | no discount is found iff every record under the key ends before the travel date; a found percentage belongs to a record under the key that is still in force |
| FareLookups.RailcardEntryFirstValid | pf3/ProcessFareList.cpp:319-329 | no railcard is found iff no record under the code has valid dates; a found one is stored under the code and has valid dates |
| FareLookups.TicketTypeEntryFirstValid | pf3/ProcessFareList.cpp:334-344 | no ticket type is found iff no record under the code has valid dates; a found one is stored under the code and has valid dates |
| FareLookups.GetCRSFromNLC | pf3/ProcessFareList.cpp:479-492 | the CRS code of the station's first location record, or empty when it has none |
| FareLookups.EqualRangeFirst | pf3/ProcessFareList.cpp:482-485 | `equal_range` is empty iff the key is absent, and its first value is the one `find` returns |
| FareLookups.DerivedFields | pf3/ProcessFareList.cpp:494-507 | the request keeps every given field; the status codes come from the first valid railcard record (unchanged when there is none) and the CRS codes from the stations' location records |
| FareLookups.GetParamsDerivedFields | pf3/ProcessFareList.cpp:494-507 | the procedure fills the derived fields as `DerivedFields` states |
| NonStandardDiscounts.CandidateScore | pf3/ProcessFareList.cpp:128-143 | a record scores -1..15; it scores 0 or more iff its dates are valid and it matches; it scores 8 or more iff, in addition, it was reached through the searched station itself |
| NonStandardDiscounts.FoldBestSnoc | pf3/ProcessFareList.cpp:138-142 | comparing one more candidate updates the best found so far, and nothing else |
| NonStandardDiscounts.FoldBestNext | pf3/ProcessFareList.cpp:126-144 | stepping the inner loop over one more record compares exactly that record |
| NonStandardDiscounts.FoldBestFirstMax | pf3/ProcessFareList.cpp:114-145 | the search keeps the first candidate with the highest score; nothing is found iff no candidate scores 1 or more |
| NonStandardDiscounts.Scored | pf3/ProcessFareList.cpp:124-132 | the records under one code are compared in index order, each with its score |
| NonStandardDiscounts.IndexRangeValid | pf3/ProcessFareList.cpp:124-129 | every position stored in an index under a code is a record of the non-standard discount table |
| NonStandardDiscounts.NonStandardDiscountOf | pf3/ProcessFareList.cpp:101-185 | the chosen discount, if any, is a record of the table |
| NonStandardDiscounts.CandidatesAreRecords | pf3/ProcessFareList.cpp:122-129 | every candidate reached through the index names a record of the table |
| NonStandardDiscounts.FoldBestIsCandidate | pf3/ProcessFareList.cpp:119-141 | the search result is either where it started or one of the candidates |
| NonStandardDiscounts.NonStandardDiscountChoice | pf3/ProcessFareList.cpp:101-185 | an origin candidate scoring 1 or more decides; otherwise the destination's best decides; nothing is found iff no candidate on either side scores 1 or more |
| NonStandardDiscounts.SelfMatchOutranks | pf3/ProcessFareList.cpp:133-137 | any match through the searched station itself outranks every match through one of its groups |
| NonStandardDiscounts.GetNonStandardDiscount | pf3/ProcessFareList.cpp:101-185 | the two loops return what `NonStandardDiscountOf` states |
| NonStandardDiscounts.ScanIndex | pf3/ProcessFareList.cpp:121-145 | the loop over the searched codes compares every candidate of every code, in order |
| NonStandardDiscounts.ScanCode | pf3/ProcessFareList.cpp:124-144 | the loop over one code's records compares each of them, in index order |
| NDFMerge.Admitted | pf3/ProcessFareList.cpp:217-233 | a record of the flow is kept exactly when its dates are valid for the query and search dates, its railcard is the request's, and the route and ticket code match the request's (an empty one matches any) |
| NDFMerge.AdmitNDFs | pf3/ProcessFareList.cpp:217-233 | the loop keeps the admitted records of the flow, in table order |
| NDFMerge.FirstIndex | pf3/ProcessFareList.cpp:237-241 | the index maps the (route, ticket code) of every found record to a found record with that key |
| NDFMerge.FirstIndexKeepsFirst | pf3/ProcessFareList.cpp:240 | `map::insert` leaves an existing entry alone, so a key found twice points at its first record |
| NDFMerge.BuildIndex | pf3/ProcessFareList.cpp:237-241 | the loop builds the index `FirstIndex` describes |
| NDFMerge.Wrap | pf3/ProcessFareList.cpp:209 | every found record starts in a slot of its own, in order |
| NDFMerge.ApplyNFOs | pf3/ProcessFareList.cpp:247-296 | the NFO loop never removes a slot |
| NDFMerge.ApplyNFORecords | pf3/ProcessFareList.cpp:247-296 | the loop over the flow's NFO records computes `ApplyNFOs` |
| NDFMerge.ApplyNFOsShape | pf3/ProcessFareList.cpp:243-296 | after the NFOs: each found record holds the last admitted NFO that replaces it (or itself), NFOs whose key is not indexed are appended in order, and the suppression set is the keys of the admitted suppressions |
| NDFMerge.SuppressionKeysSnoc | pf3/ProcessFareList.cpp:252-268 | one more NFO adds its key to the suppressions exactly when it is an admitted suppression |
| NDFMerge.AdditionsSlots | pf3/ProcessFareList.cpp:281-287 | the appended slots grow by the NFO appended, if any, and are otherwise unchanged |
| NDFMerge.Suppress | pf3/ProcessFareList.cpp:298-307 | a slot is erased exactly when a suppression's key is indexed and points at it; every other slot is unchanged |
| NDFMerge.SuppressAll | pf3/ProcessFareList.cpp:298-307 | the loop over the suppression set computes `Suppress`, whatever the order of the set |
| NDFMerge.Emit | pf3/ProcessFareList.cpp:309-314 | inserting the remaining records keeps the results ordered by key |
| NDFMerge.EmitAll | pf3/ProcessFareList.cpp:309-314 | the loop inserts every remaining record as `Emit` states |
| NDFMerge.EmitKeepsExisting | pf3/ProcessFareList.cpp:313 | `map::insert` never overwrites: a result present before keeps its value |
| NDFMerge.EmitNewValue | pf3/ProcessFareList.cpp:308-314 | a key the results lacked receives the prices of the first remaining slot with that key, since `map::insert` keeps the first |
| NDFMerge.SlotKeysSnoc | pf3/ProcessFareList.cpp:309-314 | one more slot adds its record's result key, if it holds one |
| NDFMerge.EmitKeys | pf3/ProcessFareList.cpp:309-314 | after emission the keys are those before plus the key of every remaining record |
| NDFMerge.ProcessNDFsOf | pf3/ProcessFareList.cpp:207-315 | the merged results stay ordered by key |
| NDFMerge.ProcessNDFs | pf3/ProcessFareList.cpp:207-315 | the four loops compute `ProcessNDFsOf` and keep the results ordered |
| NDFMerge.NFOAdditionsNeverSuppressed | pf3/ProcessFareList.cpp:281-307 | an NFO appended as a new record survives: suppressions only reach records through the index, which holds NDFs alone |
| NDFMerge.AdditionSlot | pf3/ProcessFareList.cpp:298-307 | a record appended after the found records is never erased |
| NDFMerge.SuppressionWinsOverOverride | pf3/ProcessFareList.cpp:288-307 | an admitted suppression erases the record its key's index entry points at, even after an NFO has replaced that record |
| NDFMerge.FinalSlotsAdmitted | pf3/ProcessFareList.cpp:219-296 | every record left to emit passed the admission test and is an NDF of the flow or a non-suppression NFO of the flow |
| NDFMerge.LastOverrideIsOverride | pf3/ProcessFareList.cpp:274-293 | the replacement chosen for a key is an admitted non-suppression NFO with that key |
| NDFMerge.AdditionsAreOverrides | pf3/ProcessFareList.cpp:274-287 | every appended record is an admitted non-suppression NFO whose key the index lacks |
| NDFMerge.ProcessNDFsResults | pf3/ProcessFareList.cpp:207-315 | the results gain exactly the keys of the records that survive, keep every value they already held, and give each new key the adult fare, child fare and restriction code of the first surviving record with that key |
| FareEngine.FareEntryOf | pf3/ProcessFareList.cpp:367-476 | a priced fare line is filed under (flow, route, flowid, discount indicator) and carries the line's ticket and restriction codes |
| FareEngine.ProcessFareEntryOf | pf3/ProcessFareList.cpp:367-477 | pricing a fare line keeps the results ordered by key |
| FareEngine.ProcessFareEntry | pf3/ProcessFareList.cpp:367-477 | the procedure prices the line and stores it as `ProcessFareEntryOf` states, or reports the failure the program throws |
| FareEngine.FareEntryErrors | pf3/ProcessFareList.cpp:376-412 | a line fails with "no ticket type" iff no ticket type record of its code has valid dates, and with "no non-standard discount" iff the flow uses a non-standard discount and none is found |
| FareEngine.NoRailcardAdultUndiscounted | pf3/ProcessFareList.cpp:399-417 | without a railcard the adult price is the stored fare, on the standard and the non-standard path |
| FareEngine.NonStandardNoFare | pf3/ProcessFareList.cpp:415-472 | on the non-standard path an adult flag `X` gives the adult "no fare" when a railcard is used, and the child "no fare" unless the child flag is `N`; a child flag `X` alone leaves the child at the stored fare |
| FareEngine.StandardChildPrice | pf3/ProcessFareList.cpp:385-397 | on the standard path the child price is set exactly when a child discount exists, and is then the fare rounded with that percentage |
| FareEngine.PricedOnlyRefl | pf3/ProcessFareList.cpp:859-894 | a search that adds nothing keeps every stored fare |
| FareEngine.PricedOnlyTrans | pf3/ProcessFareList.cpp:859-894 | the fares kept and added by two successive stages compose |
| FareEngine.PricedOnlyAdd | pf3/ProcessFareList.cpp:476 | pushing one allowed fare keeps every stored fare in place and adds only that fare |
| FareEngine.PriceFares | pf3/ProcessFareList.cpp:875-890 | pricing one flow record's fare lines keeps the results ordered |
| FareEngine.PriceFlowRecords | pf3/ProcessFareList.cpp:864-893 | pricing one flow's records keeps the results ordered |
| FareEngine.PriceFlows | pf3/ProcessFareList.cpp:859-894 | pricing every flow keeps the results ordered |
| FareEngine.PriceFlowsSnoc | pf3/ProcessFareList.cpp:859-894 | one more flow prices its records from the results so far; an earlier failure ends the search |
| FareEngine.PriceFlowRecordsSnoc | pf3/ProcessFareList.cpp:865-892 | one more flow record is priced only when it is valid on the travel date and its route passes the filter |
| FareEngine.PriceFaresSnoc | pf3/ProcessFareList.cpp:876-890 | one more fare line is priced only when its ticket passes the filter and no NDF result exists for its flow, route, railcard and ticket |
| FareEngine.PriceFlowsLoop | pf3/ProcessFareList.cpp:859-894 | the loop over the flows computes `PriceFlows` |
| FareEngine.PriceFlowRecordsLoop | pf3/ProcessFareList.cpp:864-893 | the loop over a flow's records computes `PriceFlowRecords` |
| FareEngine.PriceFaresLoop | pf3/ProcessFareList.cpp:875-890 | the loop over a flow record's fare lines computes `PriceFares` |
| FareEngine.PriceFaresPricedOnly | pf3/ProcessFareList.cpp:876-890 | the fare-line loop keeps every stored fare in place and adds only fares that pass the filters and are not shadowed by an NDF result |
| FareEngine.PriceFlowRecordsPricedOnly | pf3/ProcessFareList.cpp:865-892 | the same holds for the loop over a flow's records |
| FareEngine.PriceFlowsPricedOnly | pf3/ProcessFareList.cpp:859-894 | the same holds for the whole fare-line search: a found NDF always takes precedence |
| FareEngine.CollectNDFs | pf3/ProcessFareList.cpp:833-837 | running `ProcessNDFs` for every flow keeps the NDF results ordered |
| FareEngine.CollectNDFsLoop | pf3/ProcessFareList.cpp:833-837 | the loop over the flows (reversed for the return journeys) computes `CollectNDFs` |
| FareEngine.CollectNDFsSnoc | pf3/ProcessFareList.cpp:833-837 | one more flow merges its NDFs into the results so far |
| FareEngine.CollectNDFsKeepsExisting | pf3/ProcessFareList.cpp:833-837 | a later flow never overwrites an earlier flow's NDF result |
| FareEngine.MergeNDFs | pf3/ProcessFareList.cpp:896-911 | appending the NDF results to the fares keeps them ordered |
| FareEngine.MergeNDFsLoop | pf3/ProcessFareList.cpp:896-911 | the loop over the NDF results computes `MergeNDFs` |
| FareEngine.MergeNDFsExact | pf3/ProcessFareList.cpp:896-911 | under each key the merge appends exactly the NDF results of that flow and route, in order, after the fares already there |
| FareEngine.NDFFaresForOnlyMinusOne | pf3/ProcessFareList.cpp:899 | NDF results land only under keys whose flowid and discount indicator are both -1 |
| FareEngine.AllNDFs | pf3/ProcessFareList.cpp:816-837 | the NDF results of a request are ordered by key |
| FareEngine.GetAllFaresOf | pf3/ProcessFareList.cpp:804-912 | a successful search leaves the fare results ordered by key |
| FareEngine.GetAllFares | pf3/ProcessFareList.cpp:804-912 | the procedure computes `GetAllFaresOf` |
| FareEngine.SearchNDFs | pf3/ProcessFareList.cpp:816-837 | the related stations (the station itself last) and the NDF results of every origin and destination pair |
| FareEngine.ClusterFlows | pf3/ProcessFareList.cpp:852-856 | the flows searched for fare lines are every pairing of the stations once their clusters are added |
| FareEngine.GetAllFaresShape | pf3/ProcessFareList.cpp:804-912 | a request's result holds the fares already stored, then only fare-line fares no NDF result shadows, then under each key with flowid and indicator -1 the NDF results of that flow and route |
| FareEngine.FindRestriction | pf3/ProcessFareList.cpp:638-645 | the loop reports a restriction exactly when some plusbus flow is in the restriction set |
| FareEngine.FirstPlusbusNLCIsFirst | pf3/ProcessFareList.cpp:652-668 | the plusbus NLC is `0000` when no station has one, and otherwise that of the first station that has one |
| FareEngine.FindPlusbusNLC | pf3/ProcessFareList.cpp:652-668 | the loop with its `break` returns `FirstPlusbusNLC` |
| FareEngine.FillSlotsLoop | pf3/ProcessFareList.cpp:728-774 | the loop over an outward result map fills the slots as `FillSlots` states, whose contents `FillSlotsLastOfCode` gives |
| FareEngine.LastWriter | pf3/ProcessFareList.cpp:728-774 | the position of the last result that writes a slot, or -1 exactly when no result writes it |
| FareEngine.LastPricedPBD | pf3/ProcessFareList.cpp:776-790 | the position of the last priced PBD result, or -1 exactly when there is none |
| FareEngine.FillSlotsLastOfCode | pf3/ProcessFareList.cpp:728-774 | each of the five slots of a map holds the prices of the last result that writes it: the last priced PBD result (under the 99'999'99 adult test), or the last PB7, BMS, BQS or BAS result; an unpriced PBD writes nothing; a slot no result writes, and every other key, keeps its old value |
| FareEngine.FillPBDSlot | pf3/ProcessFareList.cpp:776-790 | a return slot holds the prices of the last priced PBD result or keeps its old value, and no other slot changes |
| FareEngine.PlusbusFaresSlots | pf3/ProcessFareList.cpp:728-790 | after all four maps, each of the twelve slots is decided by its own map only |
| FareEngine.FillPBDLoop | pf3/ProcessFareList.cpp:776-790 | the loop over a return result map fills the slot as `FillPBD` states |
| FareEngine.FillPBDOnlyPBD | pf3/ProcessFareList.cpp:776-790 | a return slot holds the prices of the last priced PBD result, is untouched when there is none, and no other slot changes |
| FareEngine.FillPBDKeepsOthers | pf3/ProcessFareList.cpp:776-790 | filling a return slot changes no other slot |
| FareEngine.FillPBDUnpriced | pf3/ProcessFareList.cpp:776-790 | a return map without a priced PBD result leaves the slots unchanged |
| FareEngine.FillPBDLastPriced | pf3/ProcessFareList.cpp:776-790 | the last priced PBD result decides the return slot |
| FareEngine.FillSlotsOnlySlots | pf3/ProcessFareList.cpp:728-774 | an outward map fills only its five slots |
| FareEngine.PlusbusFaresOnlySlots | pf3/ProcessFareList.cpp:728-790 | reading the four result maps touches only the twelve slot names |
| FareEngine.GetPlusbusFares | pf3/ProcessFareList.cpp:613-801 | the procedure leaves the result `PlusbusOf` describes, whose stations are `PlusbusOutcome` and whose twelve slots are `PlusbusSlotContents` |
| FareEngine.PlusbusSide | pf3/ProcessFareList.cpp:652-690 | a side's plusbus NLC is its first station's, and when it has one the NDFs from it to the side's stations on the travel date and back on the return date |
| FareEngine.PlusbusOutcome | pf3/ProcessFareList.cpp:613-801 | a restricted flow leaves the result untouched; otherwise it names the request's stations and first plusbus NLCs, its validity flag is unchanged and no slot outside the twelve changes |
| FareEngine.PlusbusSlotContents | pf3/ProcessFareList.cpp:638-790 | for an unrestricted search, b0/sw0/sm0/sq0/sa0 hold the last priced PBD, PB7, BMS, BQS and BAS result from the origin's plusbus NLC, b1 to sa1 the same from the destination's, b2 and b3 the last priced PBD on the return date from the destination's and the origin's; unwritten slots keep their values |
| TTTypes.ToUint16 | pf3/TTTypes.h:104-132 | the conversion to `uint16_t` keeps values that fit and turns -1 into 65535 |
| TTTypes.ToShort | pf3/TTTypes.h:40-43 | the conversion to `short` lands in [-32768, 32767], keeps values that fit, and differs from its input by a multiple of 2^16 |
| TTTypes.TruncDiv | pf3/TTTypes.h:11 | C++ integer division agrees with floor division on non-negative operands |
| TTTypes.ClockText | pf3/TTTypes.h:12 | two values below 100 are written as five characters: two digits, a colon, two digits, reading back as the values |
| TTTypes.TimeOfDayReadsBack | pf3/TTTypes.h:8-14 | a time below 100 hours is written `HH:MM` with minutes below 60, and 60 × HH + MM gives back the minutes |
| TTTypes.PaddedPair | pf3/TTTypes.h:12 | `setw(2)` with zero fill writes each of two values below 100 as two digits around a colon |
| TTTypes.ColonJoin | pf3/TTTypes.h:12 | two two-character fields joined by a colon split back into the fields |
| TTTypes.TwoDigitsDetermined | pf3/TTTypes.h:12 | two two-digit fields with the same value are the same text |
| TTTypes.TwoDigitValue | pf3/TTTypes.h:26-31 | a two-character field is worth ten times its first digit plus its second, and two digits are below 100 |
| TTTypes.HHMM | pf3/TTTypes.h:70 | the four digits `HHMM` are read as 60 × HH + MM minutes, at most 5999 |
| TTTypes.RecordTimeRoundTrip | pf3/TTTypes.h:8-14 | a record time `HHMM` with MM below 60 is printed back as `HH:MM` |
| TTTypes.TimeFromDigits | pf3/TTTypes.h:8-14 | the minutes 60 × HH + MM are written back as `HH:MM` |
| TTTypes.TimeTextDetermined | pf3/TTTypes.h:8-14 | an `HH:MM` text with minutes below 60 is fixed by the minutes it stands for |
| TTTypes.HoursMinutesUnique | pf3/TTTypes.h:11-12 | the split of a time into hours and minutes below 60 is unique |
| TTTypes.ColonSplit | pf3/TTTypes.h:12 | a five-character text with a colon in the middle is its two halves around the colon |
| TTTypes.GetDateRangeFromBS | pf3/TTTypes.h:16-33 | the BS record's date range is read iff its twelve date columns are digits; both years then fall in 2000-2099 |
| TTTypes.TwoDigit | pf3/TTTypes.h:26-31 | two digit characters are read as their two-digit value |
| TTTypes.EncodeBSDate | pf3/TTTypes.h:26-31 | a date of 2000-2099 written as `YYMMDD` has six digits whose pairs are the year within the century, the month and the day |
| TTTypes.TwoDigitField | pf3/TTTypes.h:26-31 | a number below 100 is written as two digits with its value |
| TTTypes.ThreePairs | pf3/TTTypes.h:26-31 | three two-digit fields in a row are read back one by one |
| TTTypes.BSRangeRoundTrip | pf3/TTTypes.h:16-33 | a date range written into the BS record's columns 9-20 reads back as the same range |
| TTTypes.DecodeToRange | pf3/TTTypes.h:26-32 | date columns holding the written fields decode to those dates |
| TTTypes.BSColumns | pf3/TTTypes.h:26-32 | twelve digits in the date columns decode field by field |
| TTTypes.OptionalTime | pf3/TTTypes.h:71-74 | an optional time is -1 when its first column is a space, and the `HHMM` time otherwise |
| TTTypes.DecodeCallTimes | pf3/TTTypes.h:64-100 | an origin record gives a departure and no arrival, an intermediate record both, a terminating record an arrival and no departure; any other record gives no times |
| TTTypes.Tiploc | pf3/TTTypes.h:50-55 | the TIPLOC is at most the eight characters from column 2, and at most seven when column 7 is a digit |
| TTTypes.PreferPublic | pf3/TTTypes.h:104-130 | the time shown is the public one when there is one within ten minutes of the working time, and the working time otherwise |
| TTTypes.TrainCall.constructor | pf3/TTTypes.h:48-102 | a call built from a record holds the record's times and the CRS code of its TIPLOC |
| TTTypes.TrainCall.GetArrival | pf3/TTTypes.h:104-116 | the arrival shown, converted to 16 bits; 65535 when neither arrival was read |
| TTTypes.TrainCall.GetDeparture | pf3/TTTypes.h:118-130 | the departure shown, converted to 16 bits; 65535 when neither departure was read |
| TTTypes.TrainCall.GetPublicArrival | pf3/TTTypes.h:131 | the public arrival converted to 16 bits; 65535 when none was read |
| TTTypes.TrainCall.GetPublicDeparture | pf3/TTTypes.h:132 | the public departure converted to 16 bits; 65535 when none was read |
| TTTypes.NewTrainCall | pf3/TTTypes.h:48-102 | building a call fails exactly when columns 10-13 are not all digits; otherwise the new call holds the record's times and CRS code |
| TTTypes.OriginCallArrival | pf3/TTTypes.h:64-116 | an origin record's call reports arrival 65535 |
| TTTypes.IntermediateCallArrival | pf3/TTTypes.h:77-116 | an intermediate call with a blank public arrival reports its working arrival |
| TTTypes.TrainRun.constructor | pf3/TTTypes.h:136-144 | a new train run has no calling points |
| TTTypes.TrainRun.AddCall | pf3/TTTypes.h:145-148 | adding a call appends it to the calling points |
| TTTypes.TrainRun.ClearCalls | pf3/TTTypes.h:149-152 | clearing removes every calling point |
| TTTypes.CRSFlow.GetString | pf3/TTTypes.h:166 | the flow's string is its origin code followed by its destination code |
| TTTypes.CRSFlowLessIsOrder | pf3/TTTypes.h:162-165 | the flow order is a strict total order |
| TTTypes.CRSFlowOriginFirst | pf3/TTTypes.h:162-165 | every flow from an earlier origin comes first |
| TTTypes.CRSFlowStringInjective | pf3/TTTypes.h:166 | two flows with three-letter origins and the same string are the same flow |
| TTTypes.Journey.constructor | pf3/TTTypes.h:192-194 | a new journey has no calling points |
| TTTypes.Journey.Add | pf3/TTTypes.h:195-198 | adding appends the point, which becomes the last; the first is unchanged unless the journey was empty |
| TTTypes.Journey.Clear | pf3/TTTypes.h:199-202 | clearing removes every calling point |
| TTTypes.Journey.GetFirst | pf3/TTTypes.h:203-206 | the first point is the earliest added |
| TTTypes.Journey.GetLast | pf3/TTTypes.h:207-210 | the last point is the latest added |
| JourneyPlanner.Marked | pf3/JourneyPlanner.cpp:26-28 | the scanned line ends with the end-of-line marker |
| JourneyPlanner.Put2 | pf3/JourneyPlanner.cpp:147 | `allplans[origin][destination] = plans` sets that one entry, creating the origin's map if needed, and leaves every other entry as it was |
| JourneyPlanner.ScanPlans | pf3/JourneyPlanner.cpp:43-146 | the character loop from column 7 runs the three-state machine over the rest of the line, stopping at the first error |
| JourneyPlanner.PlanTable.constructor | pf3/JourneyPlanner.cpp:12-30 | the plan table starts empty and the line counter at 0 |
| JourneyPlanner.PlanTable.LineFunc | pf3/JourneyPlanner.cpp:22-155 | a plan line overwrites its entry and a comment changes nothing; a rejected line changes nothing, does not advance the counter and reports its error with the 1-based line count; every other line advances the counter |
| JourneyPlanner.PlanTable.LoadPlanLines | pf3/JourneyPlanner.cpp:160-165 | every line of the plan file goes through `LineFunc`, in order |
| JourneyPlanner.PlanTable.GetPlan | pf3/JourneyPlanner.cpp:221-241 | for a `short` earliest time: after loading the origin's file the pair's entry exists (empty when absent), one list of leg queries is made per plan, in order, and every queried start time is a `short` |
| JourneyPlanner.PlansLegsLoop | pf3/JourneyPlanner.cpp:225-240 | the loop over the plans makes each plan's leg queries |
| JourneyPlanner.Entry | pf3/JourneyPlanner.cpp:225 | the pair's plans, or none when the pair has no entry |
| JourneyPlanner.Chain | pf3/JourneyPlanner.cpp:227-236 | one leg per change station: the first from the origin at the earliest time, each later one from the previous station, ten minutes after the previous leg's arrival |
| JourneyPlanner.ChainSnoc | pf3/JourneyPlanner.cpp:227-236 | one more change station adds exactly one leg, from the previous stop, leaving ten minutes after the previous leg's arrival, and keeps the earlier legs |
| JourneyPlanner.PlanLegsLoop | pf3/JourneyPlanner.cpp:227-238 | the inner loop makes the legs `PlanLegs` describes |
| JourneyPlanner.LegMinutesAreShort | pf3/JourneyPlanner.cpp:221-234 | from a `short` earliest time, every leg starts at a `short` time, because each later start is wrapped to `short` |
| JourneyPlanner.PlanLegsShape | pf3/JourneyPlanner.cpp:227-238 | a plan gives one leg more than its change stations; legs chain station to station, each ten minutes after the previous arrival, and the last ends at the destination |
| JourneyPlanner.StepConsistent | pf3/JourneyPlanner.cpp:47-146 | one character keeps the machine's variables consistent: the code being read has at most three capitals, and stored plans are non-empty lists of three-letter codes |
| JourneyPlanner.RunConsistent | pf3/JourneyPlanner.cpp:47-146 | the whole scan keeps the machine's variables consistent |
| JourneyPlanner.ParsedPlansAreCRS | pf3/JourneyPlanner.cpp:39-147 | every accepted plan line stores non-empty plans of three-capital codes, under the first and second three characters of the trimmed line |
| JourneyPlanner.ColonRequired | pf3/JourneyPlanner.cpp:32-38 | a line that is not a comment and has no colon at column 7 is rejected with "colon expected" |
| JourneyPlanner.RunAppend | pf3/JourneyPlanner.cpp:47-146 | scanning two pieces is scanning the first and then the second from where it stopped; an error in the first ends the scan |
| JourneyPlanner.RunStep | pf3/JourneyPlanner.cpp:47-146 | scanning a character and then the rest is one step followed by the scan of the rest |
| JourneyPlanner.StepNotAfterSpace | pf3/JourneyPlanner.cpp:99-104 | only a whitespace character moves the machine into the state after a complete code |
| JourneyPlanner.EndMarkerStep | pf3/JourneyPlanner.cpp:59-140 | the end marker is an error between plans, completes the plan straight after a complete code, and does nothing after a separator |
| JourneyPlanner.AcceptedLineHasPlans | pf3/JourneyPlanner.cpp:47-147 | an accepted plan line without a marker character of its own stores at least one plan |
| JourneyPlanner.BarBeforeEndRejected | pf3/JourneyPlanner.cpp:50-136 | from any state, text ending in `\|` then the end marker is rejected: `\|` returns the machine to Init, where the end marker throws |
| JourneyPlanner.TrailingBarRejected | pf3/JourneyPlanner.cpp:26-147 | a non-comment line with its colon at column 7 whose trimmed text ends in `\|` is rejected |
| JourneyPlanner.BodyHasPlans | pf3/JourneyPlanner.cpp:47-146 | plan text that does not end in whitespace, once accepted, yields at least one plan |
| JourneyPlanner.LastTwoSteps | pf3/JourneyPlanner.cpp:113-118 | a last code character followed by the end marker completes a plan |
| JourneyPlanner.TrimIsSlice | pf3/JourneyPlanner.cpp:26 | every character of the trimmed line comes from the original line |
| JourneyPlanner.CodeRun | pf3/JourneyPlanner.cpp:50-78 | a three-letter code read from outside a code leaves the machine inside that code |
| JourneyPlanner.PlanRun | pf3/JourneyPlanner.cpp:99-130 | a plan's space-separated codes leave the machine inside its last code, with the earlier codes stored |
| JourneyPlanner.PlansRun | pf3/JourneyPlanner.cpp:47-146 | the `\|`-separated text of plans followed by the end marker is accepted and yields exactly those plans |
| JourneyPlanner.FirstPlanRead | pf3/JourneyPlanner.cpp:50-130 | a plan read from between plans leaves its last code being read |
| JourneyPlanner.LastPlanRun | pf3/JourneyPlanner.cpp:113-118 | the last plan followed by the end marker is complete |
| JourneyPlanner.NextPlanRun | pf3/JourneyPlanner.cpp:105-112 | a plan followed by `\|` is complete and the next one starts |
| JourneyPlanner.PlansTextEnds | pf3/JourneyPlanner.cpp:26 | the text of plans ends with a capital letter, so trimming leaves it whole |
| JourneyPlanner.PlanTextEnds | pf3/JourneyPlanner.cpp:26 | the text of a plan ends with a capital letter |
| JourneyPlanner.PlanLineRoundTrip | pf3/JourneyPlanner.cpp:22-147 | a plan line written as origin, destination, colon and plans reads back as the same origin, destination and plans |
| JourneyPlanner.LineShape | pf3/JourneyPlanner.cpp:26-39 | such a line is not a comment, has its colon at column 7 and the two codes in front of it |
| JourneyPlanner.StoreLineRoundTrip | pf3/JourneyPlanner.cpp:22-155 | loading a written plan line stores exactly its plans for the pair and changes no other entry |
| MimeTypes.GetMimeType | pf3/mimetypesmap.cpp:62-76 | the content type stored for the lower-cased extension, or the empty string when the table has no entry for it |
| MimeTypes.HtmlExtensions | pf3/mimetypesmap.cpp:21-22 | `htm` and `html`, in any letter case, give `text/html` |
| MimeTypes.MakeLowerIdempotent | pf3/mimetypesmap.cpp:65 | lower-casing twice is lower-casing once |
| MimeTypes.LowerOfUpper | pf3/mimetypesmap.cpp:65 | upper-casing and then lower-casing is lower-casing |
| MimeTypes.LookupIgnoresCase | pf3/mimetypesmap.cpp:62-76 | an extension, its lower-case form and its upper-case form give the same content type |
| HTTPManager.QuerySegments | pf3/HTTPManager.cpp:19-30 | the query is cut into exactly three segments at its first two `&` after the leading `?` |
| HTTPManager.QuerySegmentsIff | pf3/HTTPManager.cpp:19-30 | the query splits exactly when it starts with `?` and holds two `&` after it |
| HTTPManager.QuerySplitRoundTrip | pf3/HTTPManager.cpp:21-30 | three segments, the first two without `&`, joined by `&` after a `?` split back into the same three |
| HTTPManager.AssignNamed | pf3/HTTPManager.cpp:33-51 | a segment `o=`, `d=` or `r=` sets that field to the rest of the segment, `=` included; any other name changes nothing |
| HTTPManager.SegmentWithoutEquals | pf3/HTTPManager.cpp:35-36 | a segment without `=` is ignored |
| HTTPManager.LaterSegmentWins | pf3/HTTPManager.cpp:33-52 | the last segment naming a field decides that field |
| HTTPManager.ParseODR | pf3/HTTPManager.cpp:16-63 | a query is accepted only with an origin and a destination of four characters each |
| HTTPManager.GetODR | pf3/HTTPManager.cpp:16-63 | success exactly when the query parses; the outputs are then the parsed values, and otherwise they are left as they were |
| HTTPManager.FareQueryRoundTrip | pf3/HTTPManager.cpp:16-63 | the query a client writes, `?o=…&d=…&r=…`, reads back as the same origin, destination and railcard |
| HTTPManager.NormaliseQuery | pf3/HTTPManager.cpp:270-277 | the values are upper-cased with their lengths kept, and an empty railcard becomes three spaces (no railcard) |
| HTTPManager.ProcessGet | pf3/HTTPManager.cpp:253-355 | a URI is a fare request exactly when it starts with `/PFRJIS`; otherwise it is served as a file only when it starts with `/` and is shorter than 255 characters |
| HTTPManager.FareRequestRoute | pf3/HTTPManager.cpp:260-282 | a fare request written by a client reaches the fare search with its values normalised |
| HTTPManager.ContentTypeOfExtension | pf3/HTTPManager.cpp:349-355 | a file's content type is that of the text after its last `.` |
| HTTPManager.FaresIsIndex | pf3/HTTPManager.cpp:326-333 | `/fares` is served as `/index.html`, with the HTML content type |
| HTTPManager.StaticContentType | pf3/HTTPManager.cpp:326-355 | a file is sent with the content type of its extension, whatever the extension's letter case |
| HTTPManager.SplitRequestLine | pf3/HTTPManager.cpp:116-145 | a request line is refused with 400 unless it is `GET`, a blank, and a URI followed by a blank and a protocol; the URI then holds no blank |
| HTTPManager.RequestLineRoundTrip | pf3/HTTPManager.cpp:116-140 | `GET`, a space, a URI, a space and a protocol split back into the URI and the protocol |
| HTTPManager.OtherMethodsRefused | pf3/HTTPManager.cpp:122-145 | a request line whose first word is not `GET` is refused with 400 "Invalid Request Method" |
| HTTPManager.Feed | pf3/HTTPManager.cpp:77-105 | reading one byte keeps every stored header line trimmed |
| HTTPManager.EndLine | pf3/HTTPManager.cpp:94-98 | storing a finished line, trimmed, keeps every stored header line trimmed |
| HTTPManager.Finish | pf3/HTTPManager.cpp:86-92 | completing a header keeps every stored line trimmed |
| HTTPManager.FeedAll | pf3/HTTPManager.cpp:77-105 | reading a chunk keeps every stored header line trimmed |
| HTTPManager.HTTPManager.constructor | pf3/HTTPManager.h:11-30 | a new handler has no stored lines and has handled no request |
| HTTPManager.HTTPManager.ProcessCompleteRequest | pf3/HTTPManager.cpp:110-146 | the request line decides: a refused line is reported and nothing is handled; otherwise the URI is routed as `ProcessGet` routes it; the stored lines are kept |
| HTTPManager.HTTPManager.PushData | pf3/HTTPManager.cpp:72-107 | the stored lines and handled requests are those of reading the chunk byte by byte; the result is true iff the chunk held the blank line that ends a header, or the error that stopped it |
| HTTPManager.FeedAllAppend | pf3/HTTPManager.cpp:77-105 | reading two pieces is reading the first and then the second |
| HTTPManager.FailureStays | pf3/HTTPManager.cpp:90 | after an error nothing more is read |
| HTTPManager.FeedNext | pf3/HTTPManager.cpp:77-105 | reading one more byte of the chunk is one more step |
| HTTPManager.FailureEndsInput | pf3/HTTPManager.cpp:90 | once a prefix of the chunk has failed, the rest of it is not read |
| HTTPManager.CarriageReturnIgnored | pf3/HTTPManager.cpp:79-82 | carriage returns make no difference anywhere in the input |
| HTTPManager.TrailingBytesDiscarded | pf3/HTTPManager.cpp:76-104 | bytes after the last line feed of a chunk are lost: the stored lines, the handled requests and the result are those of the chunk up to that line feed |
| HTTPManager.LineAccumulates | pf3/HTTPManager.cpp:101-104 | text with no line breaks only extends the partial line |
| HTTPManager.HeaderLines | pf3/HTTPManager.cpp:96-97 | lines a client may send are all trimmed |
| HTTPManager.LineEnd | pf3/HTTPManager.cpp:79-83 | CR LF after a line acts as the line feed alone |
| HTTPManager.OneLineStored | pf3/HTTPManager.cpp:93-99 | one written line, CR LF included, is stored as it was written |
| HTTPManager.HeaderLinesStored | pf3/HTTPManager.cpp:77-105 | written header lines are stored in order, as they were written |
| HTTPManager.NextLineStored | pf3/HTTPManager.cpp:93-99 | the lines read so far plus one more written line are stored in order |
| HTTPManager.StoreAfter | pf3/HTTPManager.cpp:93-99 | a further written line after text already read is appended to the stored lines |
| HTTPManager.HeaderCompletes | pf3/HTTPManager.cpp:72-107 | a complete header then an empty line is handled as its first line says, the stored lines are cleared and a complete header is reported; a refused request keeps the lines and reports the error |
| HTTPManager.GetRequestRouted | pf3/HTTPManager.cpp:72-146 | a GET request for a URI, sent as a complete header, is routed as `ProcessGet` routes that URI |
| HTTPManager.RequestLineIsHeaderLine | pf3/HTTPManager.cpp:116-138 | a well-formed GET request line is a line a client may send |

## Left out

- Threads, the reader queue, loader events and progress output of `pf3.cpp` and `LineParsers.cpp` are not modelled; loading is sequential and the indices are built after every table is loaded.
- File and directory access is not modelled: file contents are sequences of lines, and the directory listing and the current directory are parameters.
- The timetable loader (`LineParsers.cpp:324-416`) is left out because it keeps function-static state across calls; only the timetable record types it builds are modelled.
- `GetJourneyPlan` is left out because it reads a file and discards its result.
- `GetSingleLegTimes` is not part of this model (it uses a hard-coded date and an unchecked `upper_bound`); `GetPlan` takes the time of each leg as a parameter and returns the leg queries it makes.
- `GenerateJSON`, the response text, Content-Length, file serving and the performance counters of `ProcessGet` are serialisation and I/O; the model records which handling each request is routed to.
- The definitions of `RJISDate` (`AreDatesValid`, `IsDateInRange`, the date text), `UNLC`/`UFlow` and the fixed-width code types, `PermuteNLCs`, `GetCRS` and the `ams::` string utilities lie outside the modelled program files, so they are modelled from their names and uses: plain dates, strings, `Codes.Permute`, `Text.MakeUpper`, `Text.Trim` and the other `Text` functions; `ams::AddSlashIfMissing` is assumed to add a backslash to a non-empty directory.
- "Today" is a parameter wherever the program reads the clock.
- A cleared code is the empty string.
- Multimaps are sequences in insertion order, so a filtered file lists its records in load order within one key; the order across keys that a `std::multimap` gives is not modelled for the written files.
- Fields of the RJIS records that the program never reads are not decoded.
- The `StatusValue` text shown in the results is not modelled.
- An exception thrown by the program is an `Err` result. `GetAllFares` leaves the caller's map partly updated when it throws; the model returns `Err` without that partial update.
- Undefined behaviour is made explicit: an unchecked `end()` of the non-standard discount search becomes an `Err`, and an uninitialised child fare or ticket type becomes `None`.
- The unsigned arithmetic of `Rounding` and `GetMatchQuality` is written out modulo 2^32; `GetPlan`'s `earliestMinutes` is a `short` (a requires), and each later leg's start, ten plus the previous leg's time, is wrapped to `short` as the program's `short` variable wraps it.
- `FoundPlusBus::valid_` is never set by the program, so it stays false in the model.
- A restriction line too short for its fields is rejected as an `Err` where the program would read past the end.
- A plan line too short to reach its colon is rejected like a line without the colon.
- `TrainCall::recordType` is not modelled, because the constructor's assignments go to a local string of the same name.
- The running days, dates, identities and line number of a `TrainRun` are set by the timetable loader and are not modelled.
- Characters are Unicode code points rather than bytes, which changes nothing for the ASCII text the program handles.
- The `cr` flag of `PushData` is never read and is not modelled.
- A header that is empty up to its blank line is read as an empty request line, which gives error 400.
- The buffer copy of the response (`HTTPManager.cpp:416-422`) is left out with the rest of the response output.
- `MimeTypes.MimeTypeMap`: that every content type in the table is non-empty is not proved as a separate lemma.
