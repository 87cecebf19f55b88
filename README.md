# mcserverstats session reconstruction, in Dafny

This project models the part of mcserverstats that rebuilds play sessions from Minecraft server
logs. It then proves properties of that model.

Each log file is reduced to:
- whether its first line is the server boot line;
- its lines, each classified into the event its action regex recognises. The events are a UUID
  announcement, a join, a leave with a reason, a server stop, or no action.

Four generations of the tracker are modelled:

- **mcserverstats/logalyzer.py**, the current tracker:
  - Class `LogFile` keeps, per rotated log:
    - `online`: name → `[uuid, join_time, login_count]`;
    - `times`, the closed sessions;
    - `uuids`;
    - the `started`/`stopped` flags;
    - `first_event` and `last_event`.
  - A successor takes over its predecessor's `online` dict object. If the server restarted,
    every inherited player gets one crash leave at the predecessor's `last_event`. After the
    last line of a stopped server, every player still online gets one leave.
  - Class `LogDirectory` chains the rotated files in name order, ending with `latest`. It
    reads a range of days, collects the sessions, and crops them to a query window.
  - Sessions: module `Sessions` holds the transitions as functions on values.
  - LogFiles: classes `LogFile` and `OnlineTable` run the same steps on mutable objects, with
    the aliasing of `online` made explicit: every read file of a chain refers to one table.
  - LogDirectories and SessionCrops: the directory and its queries.
  - LogNames: the name ↔ key conversions and the day-range filter.
- **LogProcessor.py**, the second tracker (module `LogProcessor`):
  - each file is replayed into a fresh `player -> [(join, leave)]` map;
  - an open entry is marked by the sentinels `stillOnline` and `doubleJoin`, modelled as the
    sum type `LeaveMark`;
  - `get_slots` spreads sessions over fixed-width time slots;
  - `printTotalTimes` sums each player's time inside a window.
- **scan.py**, the first tracker (module `Scan`):
  - its `LogProcessor` mutates class-level `times`/`processedFiles`, shared by every instance;
  - it has its own `getSlots` and `printTotalTimes`, and the row-building and bar-index
    arithmetic of `drawHistogram`.
- **logalyzer.py** at the repository root, an earlier `LogFile` (module `LegacyLogalyzer`):
  - a join overwrites the entry, and a leave without a join raises;
  - `read_log` takes the list of previous logs;
  - `peek_start` can read the `started:` header of a cached `.yaml` file;
  - the line loop runs `found_stop` as written, which raises `TypeError` when anyone is
    online (see Findings). The spec functions take a `StopVersion`: `AsWritten` is what the
    methods run, and `AsIntended` is the corrected stop, proved separately.
- **timeutils.py** (module `TimeUtils`): the date-string helpers.

Shared pieces:
- Module `SlotMath` holds the slot arithmetic that both `get_slots` implementations share:
  Python's floor division, and the overlap `min(leave, slotEnd) - max(join, slotStart)`. Its
  central theorem is conservation: the per-slot shares of a session add up to its length.
- Module `Dicts` models a Python dict whose iteration order matters as an insertion-ordered
  `Dict`.

Conventions:
- Raised exceptions are `Err` values of a `Result`, each named after the raise it stands for.
- mcserverstats/logalyzer.py is Python 3: comparing `None` with a number raises `TypeError`,
  which the model turns into an error value (`LastEventMissing`, a crop without leave time).
- LogProcessor.py and scan.py are Python 2: `None` orders below every number and a string
  above, and the model writes these comparisons out where the source relies on them.
- Local-time conversion (`time.mktime` of a parsed date string) is a function parameter
  `toEpoch`.

## Model

| member | source | states |
|---|---|---|
| TimeUtils.PrefixBefore | timeutils.py:31 | `split(sep, 1)[0]`: a prefix of the input that contains no separator, shorter than the input exactly when the separator occurs, and followed by it |
| TimeUtils.DateStrToEpoch | timeutils.py:8-13 | the result is `None` exactly when the date string is `None` |
| TimeUtils.EnsureFullDateAppendsIffNoSpace | timeutils.py:19-22 | `' ' + time_str` is appended exactly when the string has no space; otherwise it is returned unchanged; the result always holds a space |
| TimeUtils.EnsureFullDateIdempotent | timeutils.py:19-22 | a second `ensure_full_date`, with any time string, changes nothing |
| TimeUtils.EnsureDayOnlyCases | timeutils.py:24-32 | `None` and `''` pass through, a space-free string is returned as is, otherwise the prefix before the first space; a result never holds a space |
| TimeUtils.EnsureDayOnlyIdempotent | timeutils.py:24-32 | `ensure_day_only` is idempotent |
| TimeUtils.DayOnlyOfFullDate | timeutils.py:19-32 | `ensure_day_only(ensure_full_date(d)) == d` for every space-free `d` |
| TimeUtils.DateStrToEpochCases | timeutils.py:8-13 | `None` maps to `None`; a string that already holds a time is converted as it is, whatever `time_str` is given |
| TimeUtils.HumanDateStrCases | timeutils.py:46-54 | `None` and strings not ending in `' 00:00:00'` are unchanged; otherwise that suffix is cut off |
| TimeUtils.HumanDateOfMidnight | timeutils.py:46-54 | `human_date_str` inverts `ensure_full_date` at midnight for every space-free day |
| TimeUtils.HumanDateStrAsWrittenRaises | timeutils.py:52 | as written, `'2015-03-12 00:00:00'` raises `NameError`; the corrected function returns `'2015-03-12'` |
| TimeUtils.HumanDateStrAsWrittenFailsOnAnyDate | timeutils.py:52-53 | as written, every non-empty date string raises `NameError`; `None` and `""` pass unchanged, as in the corrected function |
| Dicts.Dict.Put | mcserverstats/logalyzer.py:128 | `d[k] = v` maps `k` to `v`; an existing key keeps its place in the iteration order, a new one goes last; a well-formed dict stays well formed |
| Dicts.Dict.Delete | mcserverstats/logalyzer.py:141 | `del d[k]` unmaps `k` and drops it from the order: the keys before and after it stay, in their order; an absent key leaves the order as it was |
| Sessions.JoinCases | mcserverstats/logalyzer.py:116-128 | a join files the player under the last UUID announced for the name, or under the name; a first join appends `[uuid, t, 1]`; a repeated join keeps uuid, join time and position and adds one login; the count invariant is kept |
| Sessions.LeaveWhileOffline | mcserverstats/logalyzer.py:134-137 | a leave for a player not online changes neither `online` nor `times` |
| Sessions.LeaveCases | mcserverstats/logalyzer.py:138-144 | with every count at least one, a leave never raises; at count one the player is dropped and exactly one `[uuid, join, t, name]` is appended; above one only the count drops; the keys keep their order, minus the player who left |
| Sessions.LeaveAllStopsAtError | mcserverstats/logalyzer.py:76-77 | in the crash and stop loops, the first raising leave ends the loop |
| Sessions.RunStopsAtError | mcserverstats/logalyzer.py:89-109 | the first raising line ends `convert_log`; later lines are never reached |
| Sessions.LeaveAllCloses | mcserverstats/logalyzer.py:110-113 | one leave per listed name: players logged in once are closed at the given time, in list order; players counted twice or more stay online with one login fewer |
| Sessions.LeaveAllKeys | mcserverstats/logalyzer.py:110-113 | the same loop leaves online exactly the players of `Survivors`, in their old order: a player logged in once is taken out of the order, the others keep their places |
| Sessions.SurvivorsMembers | mcserverstats/logalyzer.py:138-144 | `Survivors` keeps a key exactly when it is not a listed player logged in once |
| Sessions.AfterLeavesClosedForm | mcserverstats/logalyzer.py:138-141 | the leaves one by one give the same `online` as the reference definition: listed single logins removed, other listed players one login fewer |
| Sessions.CrashCloses | mcserverstats/logalyzer.py:71-78 | a successor that starts fresh offers each inherited player exactly one leave at the predecessor's `last_event`, and the players left online keep their order (`Survivors`); one without a boot line inherits `online` unchanged |
| Sessions.StopCloses | mcserverstats/logalyzer.py:110-113 | a stop only raises the flag, also the second time; after the lines of a stopped file, each player still online gets one leave at `last_event`, and those left online keep their order; a file without stop is left as it is |
| Sessions.StepKeepsInvariant | mcserverstats/logalyzer.py:95-109 | one line never raises and keeps every `online` count at least one, each player listed once |
| Sessions.RunKeepsInvariant | mcserverstats/logalyzer.py:87-109 | the whole line loop never raises and keeps that invariant |
| Sessions.ConvertOutcome | mcserverstats/logalyzer.py:69-80 | a conversion fails exactly for a first file without boot line, with 'First log and no server start'; the negative-count `ValueError` is unreachable |
| Sessions.ChainOutcome | mcserverstats/logalyzer.py:71-80 | reading a chain fails exactly when its first file does not start with the boot line; otherwise every file's `online` keeps the invariant |
| Sessions.ChainPrefix | mcserverstats/logalyzer.py:71-72 | reading a file reads its predecessors the same way: states of a prefix are the prefix of the states, and a failing prefix fails the chain with its error |
| Sessions.LatestIsMaximum | mcserverstats/logalyzer.py:100-101 | the running `last_event` is at least every timestamp and the starting value, and is set once anything is seen |
| Sessions.ActKeepsEvents | mcserverstats/logalyzer.py:116-150 | no action changes `first_event` or `last_event` |
| Sessions.RunEvents | mcserverstats/logalyzer.py:98-101 | over the line loop, `first_event` is the old one or the first timestamp, and `last_event` bounds every timestamp |
| Sessions.ConvertEvents | mcserverstats/logalyzer.py:98-101 | after a conversion, `first_event` is the first timestamp of the file's lines and `last_event` the largest; both are set together and `first_event <= last_event` |
| LogFiles.OnlineTable.constructor | mcserverstats/logalyzer.py:43 | a fresh, empty `{}` object |
| LogFiles.LogFile.constructor | mcserverstats/logalyzer.py:26-44 | an unread file linked to its predecessor, with its own empty `online` and nothing peeked |
| LogFiles.LogFile.FoundUuid | mcserverstats/logalyzer.py:116-118 | records the UUID announced for the name |
| LogFiles.LogFile.FoundJoin | mcserverstats/logalyzer.py:120-128 | the dict object `online` refers to becomes the `Sessions.FoundJoin` of its contents |
| LogFiles.LogFile.FoundLeave | mcserverstats/logalyzer.py:130-144 | `online` contents and `times` become the `Sessions.FoundLeave` result; only a negative count raises |
| LogFiles.LogFile.FoundStop | mcserverstats/logalyzer.py:146-150 | sets `stopped`, whatever it was |
| LogFiles.LogFile.LeaveEach | mcserverstats/logalyzer.py:111-113 | the loop over a snapshot of the keys gives `Sessions.LeaveAll` over the old key order |
| LogFiles.LogFile.PeekStart | mcserverstats/logalyzer.py:163-182 | a second peek returns the remembered flag; a first one returns whether the first line is the boot line and takes its time as `first_event` |
| LogFiles.LogFile.ConvertLines | mcserverstats/logalyzer.py:87-109 | the line loop leaves the state `Sessions.Run` computes, or raises its error |
| LogFiles.LogFile.ConvertLine | mcserverstats/logalyzer.py:90-109 | one line gives the state `Sessions.Step` computes |
| LogFiles.LogFile.ReadLog | mcserverstats/logalyzer.py:46-67 | a read file is left alone; otherwise the chain up to the file is converted, and an error is the chain's conversion error |
| LogFiles.LogFile.Open | mcserverstats/logalyzer.py:69-80 | on success every predecessor is read, this file refers to the shared table and holds the ledger `Sessions.Begin` computes, with no UUIDs, no stop and `first_event` from the boot line; an error is the chain's conversion error, so a first file without boot line raises |
| LogFiles.LogFile.OpenNext | mcserverstats/logalyzer.py:71-78 | with a predecessor: the predecessor is read, then `online` is taken over and crash-closed as `Sessions.Begin` says |
| LogFiles.LogFile.ReadPrev | mcserverstats/logalyzer.py:72 | reading the predecessor leaves the shared table holding its `online` |
| LogFiles.LogFile.TakeOver | mcserverstats/logalyzer.py:73-78 | after `self.online = prev_log.online` this file refers to the shared table, whose contents and `times` are `Sessions.Begin`'s ledger |
| LogFiles.LogFile.ConvertRest | mcserverstats/logalyzer.py:83-113 | the line loop and the stop close give `Sessions.Convert` of the file |
| LogFiles.LogFile.ConvertLog | mcserverstats/logalyzer.py:69-114 | the file holds its state in the chain's conversion, and the shared table holds its `online`; an error is the chain's |
| LogFiles.LogFile.Finish | mcserverstats/logalyzer.py:83-113 | the rest of `convert_log` records the converted state |
| LogFiles.LogFile.AllReadConverts | mcserverstats/logalyzer.py:64 | a fully read chain converts, and the file holds the last state of that conversion |
| LogFiles.LogFile.ChainFailsWith | mcserverstats/logalyzer.py:69-113 | with the predecessors read, a failing conversion of this file fails the chain |
| LogFiles.LogFile.PrevFails | mcserverstats/logalyzer.py:72 | a failing predecessor fails the chain with the same error |
| LogFiles.LogFile.ReadWithinCount | mcserverstats/logalyzer.py:47-49 | in a valid chain the read files are exactly the first ones |
| LogFiles.LogFile.TableHoldsLastRead | mcserverstats/logalyzer.py:73 | through the aliasing, the one table of the chain holds the `online` of the last file read, not that of the file asked for |
| LogFiles.LogFile.MemberConverts | mcserverstats/logalyzer.py:69-114 | every read file holds the `times` and `last_event` the chain's conversion computes at its position, and refers to the shared table |
| LogNames.Sort | mcserverstats/logalyzer.py:189 | `sorted(...)` of keys: the result is ordered under tuple comparison and is a permutation of the input |
| LogNames.LexOrder | mcserverstats/logalyzer.py:189 | Python tuple comparison is a strict total order |
| LogNames.SplitJoinRoundTrip | mcserverstats/logalyzer.py:300-306 | `split_for_compare(join_from_compare(t)) == t` for 4-tuples of non-negative integers |
| LogNames.JoinInjective | mcserverstats/logalyzer.py:304-306 | distinct keys get distinct names |
| LogNames.FilterDayRangeMembers | mcserverstats/logalyzer.py:281-291 | a key is kept exactly when its day `log[:3]` is at least `from` and below `to` (at most `to` when inclusive) |
| LogNames.FilterDayRangeCounts | mcserverstats/logalyzer.py:281-291 | each kept key occurs as often as in the input, others not at all |
| LogNames.FilterDayRangeSorted | mcserverstats/logalyzer.py:281-291 | filtering sorted keys gives sorted keys |
| LogNames.DateToLogDayCases | mcserverstats/logalyzer.py:293-298 | `inclusive_to` is forced exactly when `to_date` has a time; both bounds are cut to space-free prefixes and `None` stays `None` |
| LogDirectories.SplitAll | mcserverstats/logalyzer.py:188-189 | every name is split, and the map raises exactly when some name is not a dash-separated integer list |
| LogDirectories.JoinAll | mcserverstats/logalyzer.py:192-193 | every key is joined, raising exactly when some key is not a 4-tuple |
| LogDirectories.LastIndex | mcserverstats/logalyzer.py:196 | `log_files[k]` ends up the file of the last occurrence of `k` |
| LogDirectories.Chain | mcserverstats/logalyzer.py:190-197 | one unread `LogFile` per key, each linked to the one before, `latest` last, with `log_files` indexing the last file of each key |
| LogDirectories.Append | mcserverstats/logalyzer.py:194 | `LogFile(logs_dir, log_name, prev_log_file)` makes a new unread file whose chain is its predecessor's followed by its own text |
| LogDirectories.LogDirectory.constructor | mcserverstats/logalyzer.py:190-197 | the directory holds a valid unread chain of the given texts ending in `latest`, indexed by every key |
| LogDirectories.LogDirectory.Create | mcserverstats/logalyzer.py:186-197 | raises exactly when a name does not split or a sorted key does not join; otherwise the keys are the sorted permutation of the split names and the chain follows them |
| LogDirectories.IntervalPositions | mcserverstats/logalyzer.py:199-214 | when the range can be read, the whole chain converts and the files yielded are chain positions, never none |
| LogDirectories.IntervalCases | mcserverstats/logalyzer.py:199-214 | the interval fails on a bad bound, then on a failing conversion, then on a missing `last_event`; otherwise it is the keys in range, followed by `latest` when the last one ends before `to_log` |
| LogDirectories.CollectedOnline | mcserverstats/logalyzer.py:216-228 | the `online` returned is well formed, with every count at least one |
| LogDirectories.UserSessionsCases | mcserverstats/logalyzer.py:230-255 | `collect_user_sessions` fails exactly when `collect_data` or a crop fails, and otherwise returns the crop of the collected data |
| LogDirectories.LogDirectory.ReadFile | mcserverstats/logalyzer.py:208 | reading a file keeps the directory valid and extends the read part up to it; an error is the chain's conversion error |
| LogDirectories.LogDirectory.ReadEach | mcserverstats/logalyzer.py:206-210 | yields the files of the keys in order; the read part reaches the furthest of them |
| LogDirectories.LogDirectory.DecideLatest | mcserverstats/logalyzer.py:211 | the condition for `latest` is `TakesLatest` on the chain's states, including the `None < int` failure |
| LogDirectories.LogDirectory.ReadTail | mcserverstats/logalyzer.py:211-214 | `latest` is read and yielded exactly when `TakesLatest` says so |
| LogDirectories.LogDirectory.ReadIntervalIter | mcserverstats/logalyzer.py:199-214 | yields the files at `IntervalPositions`, and raises its error otherwise |
| LogDirectories.LogDirectory.TimesOf | mcserverstats/logalyzer.py:225-226 | `times.extend` gives the concatenated sessions of the yielded files in chain order |
| LogDirectories.LogDirectory.LastOnline | mcserverstats/logalyzer.py:227-228 | `last_log.online` is the shared table: the `online` of the furthest file ever read |
| LogDirectories.LogDirectory.Gather | mcserverstats/logalyzer.py:223-228 | the loop of `collect_data` returns `Collected` of the yielded positions |
| LogDirectories.LogDirectory.CollectData | mcserverstats/logalyzer.py:216-228 | `collect_data` returns the sessions of the files in range in chain order, with the `online` table of the furthest file read so far (`CollectSpec`), or the error of the range |
| LogDirectories.LogDirectory.CollectUserSessions | mcserverstats/logalyzer.py:230-255 | `collect_user_sessions` returns `UserSessionsSpec` of the chain, or its error |
| SessionCrops.CropAndAddLeft | mcserverstats/logalyzer.py:236-247 | `crop_and_add` raises exactly for an admitted session without a leave time |
| SessionCrops.CropAndAddEntries | mcserverstats/logalyzer.py:236-247 | one call appends the session's cropped entry, if non-empty and admitted, to its uuid's list and touches no other list |
| SessionCrops.CropAllEntries | mcserverstats/logalyzer.py:250-251 | over many sessions, each uuid's list is the old list followed by the reference list of cropped, non-empty, admitted entries |
| SessionCrops.CropAllFails | mcserverstats/logalyzer.py:250-251 | the loop raises exactly when some admitted session has no leave time |
| SessionCrops.KeptInWindow | mcserverstats/logalyzer.py:240-243 | every stored entry satisfies `t_start <= from < to <= t_end` and is filed under its own admitted uuid |
| SessionCrops.KeptComplete | mcserverstats/logalyzer.py:240-247 | every admitted session with a non-empty crop is stored, with the cropped bounds |
| SessionCrops.OnlineCroppedAtEnd | mcserverstats/logalyzer.py:252-254 | players still online are cut at `t_end` |
| SessionCrops.OnlineNeverFails | mcserverstats/logalyzer.py:252-254 | the second loop never raises |
| SessionCrops.CropSessions | mcserverstats/logalyzer.py:250-251 | the first loop computes `CropAll` over the collected sessions |
| SessionCrops.CropOnline | mcserverstats/logalyzer.py:252-254 | the second loop computes `CropAll` over the online players' sessions up to `t_end` |
| SessionCrops.CropEach | mcserverstats/logalyzer.py:249-254 | both loops together give `CropCollected` |
| SessionCrops.CropCollectedEntries | mcserverstats/logalyzer.py:236-254 | each uuid's list holds its cropped collected sessions then its cropped online session, every entry inside the window |
| SessionCrops.CropCollectedFails | mcserverstats/logalyzer.py:249-254 | `collect_user_sessions` raises exactly when an admitted collected session has no leave time |
| SlotMath.FloorDiv | LogProcessor.py:135 | Python's `//` for a positive width: `q * b <= a < q * b + b`, also for negative epochs |
| SlotMath.OverlapBounds | LogProcessor.py:151-154 | each slot a session covers receives between 0 and `slot_size` seconds |
| SlotMath.SessionConservation | LogProcessor.py:143-155 | the shares of one session over `range(join // s, leave // s + 1)` add up to exactly `leave - join` |
| SlotMath.HourlyExample | LogProcessor.py:143-155 | `[1800, 5400]` in hourly slots gives 1800 s to each of slots 0 and 1 |
| SlotMath.SpreadSpan | LogProcessor.py:143-155 | one session adds its overlap to every slot it covers, raises exactly on the first index outside the list, and leaves other slots alone |
| SlotMath.SpreadPlayer | LogProcessor.py:140-155 | one player's entries add their shares in order; it raises exactly when some entry raises |
| SlotMath.Spread | LogProcessor.py:138-155 | it succeeds exactly when no entry raises, and then the slot list is `SlotsOf`, whatever the visiting order; a raise is one some entry makes |
| SlotMath.InWindowFits | LogProcessor.py:143-148 | when every session lies inside `[lo, hi]`, the list from `lo // s` to `hi // s` holds them all |
| SlotMath.SpanConservation | LogProcessor.py:143-155 | a session that fits the list adds exactly its length to it |
| SlotMath.HistoryConservation | LogProcessor.py:140-155 | a player's slot values add up to the length of the player's sessions |
| SlotMath.SlotsConserveTime | LogProcessor.py:138-155 | over the whole slot list, each player's column sums to the time the player played |
| LogProcessor.JoinTransition | LogProcessor.py:102-109 | an open entry becomes a double join, a double join raises, otherwise `(t, stillOnline)` is appended; the open depth goes up by one |
| LogProcessor.LeaveTransition | LogProcessor.py:110-121 | `stillOnline` is closed at `t`, `doubleJoin` drops back to `stillOnline`, nothing open raises; the open depth goes down by one |
| LogProcessor.ReplayWellFormed | LogProcessor.py:79-127 | every history the replay builds has only its last entry open |
| LogProcessor.ReplayOrdered | LogProcessor.py:79-127 | in a chronological file, every join is at most the latest time and every closed entry has `join <= leave` |
| LogProcessor.ClosedSessionsOrdered | LogProcessor.py:65-131 | in a chronological log, every session `processFileSafe` closes has `join <= leave` |
| LogProcessor.ReplayErrSticky | LogProcessor.py:79-127 | once a line raises, later lines do not matter |
| LogProcessor.GetSlotsConservesTime | LogProcessor.py:133-156 | each player's slot values add up to the time played, open sessions counted up to `lastEvent` |
| LogProcessor.GetSlotsInRange | LogProcessor.py:143-148 | with no double join and every session inside `[firstEvent, lastEvent]`, no slot index raises |
| LogProcessor.EntryTotalSign | LogProcessor.py:162-173 | one entry adds infinity exactly for a double join in an unbounded window, and otherwise nothing negative |
| LogProcessor.TotalInfiniteIff | LogProcessor.py:158-173 | a total is infinite exactly when the window is unbounded and some entry is a double join |
| LogProcessor.TotalNonNegative | LogProcessor.py:158-173 | a finite total is never negative |
| LogProcessor.TotalMonotone | LogProcessor.py:158-173 | narrowing the window `[after, before]` never increases a total |
| LogProcessor.TotalOfWholeHistory | LogProcessor.py:158-173 | over an unbounded window starting before every join, the total is the play time `get_slots` conserves |
| LogProcessor.LogProcessor.constructor | LogProcessor.py:52-56 | empty `times` and `processedFiles`, no events |
| LogProcessor.LogProcessor.GetSlots | LogProcessor.py:133-156 | no `firstEvent`/`lastEvent` or a zero width raises; otherwise it succeeds exactly when every entry fits, returning `startSlot * s` and `SlotsOf`, else a raise some entry makes |
| LogProcessor.LogProcessor.PrintTotalTimes | LogProcessor.py:158-173 | one total per player, equal to `HistoryTotal` of the player's entries |
| LogProcessor.LogProcessor.PlayerTotal | LogProcessor.py:162-173 | the inner loop computes `HistoryTotal` |
| LogProcessor.LogProcessor.ReplayLines | LogProcessor.py:79-128 | the line loop computes `Replay`, and `action_time` ends as the last parsed time |
| LogProcessor.LogProcessor.ProcessLine | LogProcessor.py:82-127 | one timed line computes `ApplyLine` |
| LogProcessor.LogProcessor.ProcessFile | LogProcessor.py:58-63 | `times` is replaced by the file's replay, or left as it was when it raises; `firstEvent`, `lastEvent` and `processedFiles` change as in `processFileSafe` |
| LogProcessor.LogProcessor.ProcessFileSafe | LogProcessor.py:65-131 | returns `ProcessLines`; `firstEvent` takes the minimum with the first line's time even when the file later raises; `lastEvent` and `processedFiles` change only on success |
| Scan.ScanTransitions | scan.py:69-82 | a join raises 'Double join' exactly when the last entry is open, leaving only the empty history it files for a new player, else appends `(t, '?')`; a leave closes an open entry at `t`; without one it raises exactly after a fresh restart, and otherwise only files the player, keeping every other history |
| Scan.ScanReplayWellFormed | scan.py:56-83 | every history, even one cut short by a raise, has only its last entry open |
| Scan.ScanReplayErrSticky | scan.py:56-83 | once a line raises, later lines do not matter |
| Scan.MinFirstJoin | scan.py:90 | computes the minimum first join over all players |
| Scan.MaxLastLeave | scan.py:91 | computes the maximum last leave over all players |
| Scan.ScanSlotsInRange | scan.py:90-100 | with closed chronological histories, every session lies between the bounds, so no slot index raises |
| Scan.ScanSlotsConserveTime | scan.py:94-105 | each player's slot values add up to the length of the player's sessions |
| Scan.TotalInfiniteIff | scan.py:108-117 | a total is infinite exactly when the window is unbounded and an entry is open, and is otherwise non-negative |
| Scan.TotalOfWholeHistory | scan.py:108-117 | over an unbounded window starting before every join, a closed history's total is its play time |
| Scan.BarSlotInRange | scan.py:129-143 | for `0 < ontime <= slotSize` the bar index lies in `[0, numBars)` and never raises |
| Scan.UnseenRowBlank | scan.py:139-143 | a player not yet seen gets blank cells for the slots skipped so far |
| Scan.AddNewPlayers | scan.py:139-140 | new players get the blanks so far; existing rows are kept |
| Scan.AppendCells | scan.py:141-143 | every row gets its cell for the slot; it raises exactly when some shown bar index is out of range |
| Scan.HistogramRows | scan.py:131-144 | the rows are those of the players seen in visible slots, each one cell per visible slot, blank before the player's first appearance; it raises exactly when a visible bar fails |
| Scan.HiddenSlot | scan.py:137-138 | a slot starting outside `[after, before)` adds no cell, no player and no failure |
| Scan.AddSlot | scan.py:139-144 | one visible slot extends the rows, the seen set and the blanks by exactly that slot |
| Scan.SharedState.constructor | scan.py:29-30 | the class attributes start as an empty dict and an empty list |
| Scan.LogProcessor.constructor | scan.py:28-30 | every instance refers to the one class-level `times` and `processedFiles` |
| Scan.LogProcessor.GetSlots | scan.py:88-106 | no players, an empty history, a zero width or an open last entry raise; otherwise bounds come from the minimum first join and maximum last leave, and it succeeds exactly when every entry fits |
| Scan.LogProcessor.PrintTotalTimes | scan.py:108-117 | one total per player, `HistoryTotal` of the player's entries |
| Scan.LogProcessor.PlayerTotal | scan.py:110-117 | the inner loop computes `HistoryTotal` |
| Scan.LogProcessor.ProcessFile | scan.py:45-86 | an empty file raises; otherwise the shared dict becomes the replay of the lines, keeping what earlier lines did when one raises; only a file read to its end is recorded, by its base name |
| Scan.LogProcessor.ReplayLines | scan.py:56-83 | the line loop leaves the shared dict as `ScanReplay` of the lines, with its error, and does not touch `processedFiles` |
| Scan.BasenameIsLastPart | scan.py:86 | `os.path.basename`: the longest suffix of the path without `/`, which follows a `/` or is the whole path |
| Scan.LogProcessor.ProcessLine | scan.py:58-82 | one line computes `ApplyScanLine` on the shared dict |
| LegacyLogalyzer.PeekYaml | logalyzer.py:156-164 | succeeds exactly when the first line starts with `started: ` and has a character after it (its line break counts), which makes the flag true iff it is `y` or `t`; a last line that is `started: ` alone raises `IndexError` |
| LegacyLogalyzer.PeekYamlReadsHeader | logalyzer.py:156-162 | a header written as `started: true` or `started: false` reads back as that flag |
| LegacyLogalyzer.LogFile.constructor | logalyzer.py:34-47 | empty `uuids`, `online` and `times`, not stopped, no events, nothing peeked or read |
| LegacyLogalyzer.LogFile.FoundUuid | logalyzer.py:101-103 | records the UUID announced for the name |
| LegacyLogalyzer.LogFile.FoundJoin | logalyzer.py:105-107 | the state becomes `JoinStep`'s, or the method raises its `KeyError` |
| LegacyLogalyzer.LogFile.FoundLeave | logalyzer.py:109-115 | the state becomes `LeaveStep`'s, or the method raises its error; with inherited `times` the player is already deleted from `online` when `append` raises |
| LegacyLogalyzer.LogFile.FoundStopAsWritten | logalyzer.py:117-121 | as written: sets `stopped`, then raises `TypeError` as soon as anyone is online |
| LegacyLogalyzer.LogFile.FoundStop | logalyzer.py:117-122 | as intended: the loop over a snapshot of the names reaches `StopStep` |
| LegacyLogalyzer.LogFile.ConvertLine | logalyzer.py:86-99 | one line gives the state `Step` computes with the stop as written, so a stop with anyone online raises `TypeError` |
| LegacyLogalyzer.LogFile.ConvertLog | logalyzer.py:77-99 | the line loop reaches `Run` of the old state over the lines, with the stop as written |
| LegacyLogalyzer.LogFile.PeekStart | logalyzer.py:134-164 | the remembered flag, else the `.yaml` header, else whether the log starts with the boot line |
| LegacyLogalyzer.LogFile.ReadLog | logalyzer.py:51-75 | a read file is left alone; a peek error or a first log without start raises; a fresh log is converted from its own state; otherwise the predecessor is read and its `online` becomes `times`; every error, including one from the line loop, is the one `Run` reaches, and leaves the file unread; a cache loads all six attributes |
| LegacyLogalyzer.JoinOverwrites | logalyzer.py:105-107 | a join succeeds exactly when a UUID was announced, then overwrites the entry with `[uuid, t]` and changes nothing else |
| LegacyLogalyzer.LeaveAppendsOne | logalyzer.py:109-115 | a leave raises exactly when the player is not online; with `times` a list it removes the player and appends exactly one `[uuid, from, t, name]` |
| LegacyLogalyzer.JoinTwiceLeaveOnce | logalyzer.py:105-115 | joins are not counted: after two joins one leave takes the player offline, recording one session from the second join |
| LegacyLogalyzer.CloseAllEmpties | logalyzer.py:118-121 | closing every player online empties `online` and appends one session per player, in join order |
| LegacyLogalyzer.StopClosesAll | logalyzer.py:117-122 | the intended stop empties `online` and appends one session per player online; inherited `times` make it raise |
| LegacyLogalyzer.StopAsWrittenFails | logalyzer.py:17-23 | with a player online, the stop as written raises, while the intended one succeeds and empties `online` |
| LegacyLogalyzer.WrittenAgreesUnlessStopFails | logalyzer.py:84-122 | the loop as written and the loop with the intended stop give the same result unless the stop as written raises `TypeError` |
| LegacyLogalyzer.ConvertWithStopAsWrittenRaises | logalyzer.py:17-23 | the log "UUID, join, stop" raises `TypeError` as written; with the intended stop it closes the one session at the stop time |
| LegacyLogalyzer.InheritedTimesRejectLeave | logalyzer.py:60 | after `self.times = prev_log.online`, the first leave of an online player raises `AttributeError` |
| LegacyLogalyzer.ActKeepsEvents | logalyzer.py:101-122 | with either stop, no action touches `first_event` or `last_event` |
| LegacyLogalyzer.RunEvents | logalyzer.py:84-92 | with either stop, the loop keeps `first_event <= last_event`, sets `first_event` from the first timestamp, and bounds every timestamp by `last_event` |
| LegacyLogalyzer.FilterRangeCounts | logalyzer.py:193-208 | a name is kept exactly when `from <= log < to`, each as often as it occurs |
| LegacyLogalyzer.FilterRangeSorted | logalyzer.py:193-208 | filtering keeps the order: sorted names give sorted names |
| LegacyLogalyzer.JoinSplitNameRoundTrip | logalyzer.py:210-212 | `join_split_name` pads month and day to two digits, and splitting the name gives the list back |

## Left out

- File and directory access:
  - gzip and plain file reading, `glob` listing and file modification times are not modelled.
  - A directory is the list of log names found, plus a function from a name to the file's
    content.
  - The newest log's date is a string parameter.
- The `.yaml` cache:
  - mcserverstats: writing (`write_yaml`) and loading are not modelled, nor `force_convert`;
    `read_log` always converts.
  - root logalyzer.py: a cache file is given as its text lines and the attributes they load
    as. `yaml.load` itself is not modelled.
- Regexes and byte decoding:
  - each line is given already classified into an `Event`;
  - a command-block line and a line without timestamp are their own line kinds;
  - for root logalyzer.py, `peek_start` opens `latest` in text mode but matches a bytes
    pattern; the model abstracts the first line to the flag `startsWithBoot` and so does not
    show what that mismatch does.
- Local-time conversion (`time.mktime`, `strptime`, `strftime`, `getDateFromFile`) is the
  function parameter `toEpoch`, or a timestamp already in each line. An unparsable date string
  is not modelled. In LogProcessor.py and scan.py, a line whose time does not parse is its own
  line kind.
- `int()` on a name part accepts only decimal digits here. Python also accepts signs, spaces
  and underscores.
- Logging, `print`, and all rendering are left out: the timeline, the punchcard, and the
  printed output of `printTotalTimes` and `drawHistogram` (a row is a list of cells, not a
  string).
- `collect_uptimes` is not part of this model. It is a reporting generator that produces no
  state the other operations read.
- `read_interval_iter` is a generator. The model reads every file of the range before
  `collect_data` uses them, which gives the same result because `collect_data` consumes the
  generator at once.
- `float('inf')` and `float('-inf')` are `None` bounds (`Option<int>`), and an infinite total
  is the value `Infinite`. That is the total before printing: `printTotalTimes` formats it with
  `'%6i'` (LogProcessor.py:176, scan.py:120), which raises `OverflowError` on an infinite
  total; printing is not modelled.
- LogFiles.LogFile.ReadLog, LogDirectories.LogDirectory.CollectData and
  LogDirectories.LogDirectory.CollectUserSessions promise `Valid()` only on success. After a
  raise, the shared `online` table holds what the lines before the error did, as in the source;
  the model states the error and makes no promise about calls that follow it.
- LogProcessor.LogProcessor.ProcessFileSafe: when a file that does not start fresh has a
  leave without a join, the source re-processes the previous log (`getPreviousLog`,
  `joinDicts`). The model ends the replay with the error `LeftBeforeThisLog` instead.
- `getPreviousLog` and `joinDicts` in LogProcessor.py and scan.py are not part of this model.
- scan.py's `drawHistogram` defaults for `after`/`before`: the model takes both as arguments,
  and does not model the default taken from `max(self.processedFiles)`.
- `AllLogs.read_interval` and `collect_sorted_split_log_names` in root logalyzer.py are not
  part of this model. The model covers the two static helpers they call, and `LogFile.read_log`
  taking the previous logs as a list.
- `latest_log_date_str`, `epoch_to_date_str`, `add_to_date_str` and `human_time` in
  timeutils.py are not part of this model. They only format or parse through the local-time
  functions.
- Python 2 versus Python 3 bytes/str comparisons in LogProcessor.py and scan.py: the model
  follows the evident intent. The boot-line test and the `' the game'` line test are taken as
  the line classifications they aim at.

## Findings

| source | as written | input that shows it | evidently intended | confidence | as-written member | corrected member |
|---|---|---|---|---|---|---|
| timeutils.py:52 | `human_date_str` refers to `midnight_str`, which the module never defines, so any non-empty string raises `NameError` | `human_date_str('2015-03-12 00:00:00')` | strip a trailing `' 00:00:00'`, as the docstring and the `[:-9]` slice say | high; not executed | TimeUtils.HumanDateStrAsWrittenRaises | TimeUtils.HumanDateOfMidnight |
| logalyzer.py:17-23 | `log_action`'s `inner` returns nothing, so every decorated method is `None` on the class; `found_stop` then calls `self.found_leave(...)`, which is `None`, and raises `TypeError` whenever a player is online at a stop (were it callable, deleting from `self.online` while iterating it would raise `RuntimeError`) | a log with a join followed by `Stopping server` | `inner` returns `fun`, and the stop leaves each player of a snapshot of `online` | high; not executed | LegacyLogalyzer.ConvertWithStopAsWrittenRaises | LegacyLogalyzer.StopClosesAll |
