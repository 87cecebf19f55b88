/**
 * LogProcessor.py: the second-generation tracker. A file is replayed into a fresh dictionary
 * `player -> [(joinTime, leaveTime)]` whose last entry may be open; open entries carry the
 * sentinels `stillOnline` ('?') and `doubleJoin` ('!') in place of a leave time, modelled
 * here as the sum type `LeaveMark`. The file is Python 2, so `None` orders below every
 * number and a string above every number.
 */
module LogProcessor {
  import opened Wrappers
  import opened SlotMath

  /** The leave field of an entry: a time, or one of the two sentinels. */
  datatype LeaveMark = At(t: int) | StillOnline | DoubleJoin

  datatype Entry = Entry(join: int, leave: LeaveMark)

  type Times = map<string, seq<Entry>>

  /** The word after the player name in a `... the game` line. */
  datatype Action = Joined | Left | OtherAction(word: string)

  /** What a line carries once its `[HH:MM:SS]` prefix has been read. */
  datatype LineKind =
    | StartLine                                    // `Starting minecraft server ...`
    | GameLine(player: string, action: Action)     // `<player> joined/left the game`
    | OtherLine

  /** One line: its time did not parse (`getDateFromFile` raised), or it did. */
  datatype LogLine = Untimed | Timed(t: int, kind: LineKind)

  datatype ProcessError =
    | EmptyLogFile                 // ValueError('Empty log file')
    | FirstLineUntimed             // the ValueError of getDateFromFile on the first line
    | MultiJoinTooDeep             // NotImplementedError('Multi-join more than 2 levels deep')
    | LeftAfterFreshRestart        // ValueError('Player ... left without logging in ...')
    | LeftBeforeThisLog            // the not-fresh branch that re-reads the previous log
    | InvalidAction                // ValueError('Invalid action ...')

  // ---------------------------------------------------------------------------------------
  // One player's history

  /** Number of logins still open at the end of a history: 0, 1 (`stillOnline`) or 2 (`doubleJoin`). */
  function Depth(entries: seq<Entry>): nat
  {
    if entries == [] then 0
    else match entries[|entries| - 1].leave
      case At(_) => 0
      case StillOnline => 1
      case DoubleJoin => 2
  }

  /** Only the last entry of a history may be open. */
  ghost predicate WellFormed(entries: seq<Entry>)
  {
    forall i :: 0 <= i < |entries| - 1 ==> entries[i].leave.At?
  }

  /** The join branch of `processFileSafe`. */
  function JoinEntries(entries: seq<Entry>, t: int): Result<seq<Entry>, ProcessError>
  {
    var n := |entries|;
    if n > 0 && entries[n - 1].leave == StillOnline then
      Ok(entries[..n - 1] + [Entry(entries[n - 1].join, DoubleJoin)])
    else if n > 0 && entries[n - 1].leave == DoubleJoin then
      Err(MultiJoinTooDeep)
    else
      Ok(entries + [Entry(t, StillOnline)])
  }

  /** The leave branch of `processFileSafe`. */
  function LeaveEntries(entries: seq<Entry>, t: int, freshRestart: bool): Result<seq<Entry>, ProcessError>
  {
    var n := |entries|;
    if n > 0 && entries[n - 1].leave == StillOnline then
      Ok(entries[..n - 1] + [Entry(entries[n - 1].join, At(t))])
    else if n > 0 && entries[n - 1].leave == DoubleJoin then
      Ok(entries[..n - 1] + [Entry(entries[n - 1].join, StillOnline)])
    else if freshRestart then
      Err(LeftAfterFreshRestart)
    else
      Err(LeftBeforeThisLog)
  }

  /** One line of the loop in `processFileSafe`, applied to `new_times`. */
  function ApplyLine(times: Times, line: LogLine, freshRestart: bool): Result<Times, ProcessError>
  {
    if line.Untimed? || !line.kind.GameLine? then Ok(times)
    else
      var player, t := line.kind.player, line.t;
      var entries := if player in times then times[player] else [];
      match line.kind.action
      case Joined =>
        (match JoinEntries(entries, t)
         case Ok(e) => Ok(times[player := e])
         case Err(x) => Err(x))
      case Left =>
        (match LeaveEntries(entries, t, freshRestart)
         case Ok(e) => Ok(times[player := e])
         case Err(x) => Err(x))
      case OtherAction(_) => Err(InvalidAction)
  }

  /** `new_times` after the loop has run over `lines`, or the exception it raised. */
  function Replay(lines: seq<LogLine>, freshRestart: bool): Result<Times, ProcessError>
  {
    if lines == [] then Ok(map[])
    else
      match Replay(lines[..|lines| - 1], freshRestart)
      case Err(x) => Err(x)
      case Ok(times) => ApplyLine(times, lines[|lines| - 1], freshRestart)
  }

  /** The first line is the server's boot line. */
  predicate FreshRestart(lines: seq<LogLine>)
  {
    |lines| > 0 && lines[0].Timed? && lines[0].kind == StartLine
  }

  /** The lines the loop visits: the boot line is consumed by the first `readline`. */
  function Body(lines: seq<LogLine>): seq<LogLine>
  {
    if FreshRestart(lines) then lines[1..] else lines
  }

  /** The whole of `processFileSafe` on a file's lines. */
  function ProcessLines(lines: seq<LogLine>): Result<Times, ProcessError>
  {
    if lines == [] then Err(EmptyLogFile)
    else if lines[0].Untimed? then Err(FirstLineUntimed)
    else Replay(Body(lines), FreshRestart(lines))
  }

  /** `action_time` after the loop: the time of the last line whose time parsed. */
  function LastTime(first: int, lines: seq<LogLine>): int
  {
    if lines == [] then first
    else if lines[|lines| - 1].Timed? then lines[|lines| - 1].t
    else LastTime(first, lines[..|lines| - 1])
  }

  /** Python 2 `max(a, b)` with `None` below every number. */
  function MaxOpt(a: Option<int>, b: int): int
  {
    if a.None? then b else Max(a.value, b)
  }

  /** `min` as written for `firstEvent`. */
  function MinOpt(a: Option<int>, b: int): int
  {
    if a.None? then b else Min(a.value, b)
  }

  // ---------------------------------------------------------------------------------------
  // Properties of the state machine

  /**
   * A join: an open entry becomes a double join, a double join raises, otherwise a new
   * open entry starts at `t`. The open depth goes up by exactly one and the closed
   * entries before it are kept.
   */
  lemma JoinTransition(entries: seq<Entry>, t: int)
    requires WellFormed(entries)
    ensures Depth(entries) == 2 <==> JoinEntries(entries, t).Err?
    ensures JoinEntries(entries, t).Ok? ==>
      var r := JoinEntries(entries, t).value;
      && WellFormed(r)
      && Depth(r) == Depth(entries) + 1
      && (Depth(entries) == 0 ==> r == entries + [Entry(t, StillOnline)])
      && (Depth(entries) == 1 ==> |r| == |entries| && r[..|r| - 1] == entries[..|entries| - 1]
                                  && r[|r| - 1].join == entries[|entries| - 1].join)
  {
  }

  /**
   * A leave: an open entry is closed at `t` keeping its join time, a double join drops back
   * to one open login, and a leave with nothing open raises (after a fresh restart) or needs
   * the previous log. The open depth goes down by exactly one.
   */
  lemma LeaveTransition(entries: seq<Entry>, t: int, freshRestart: bool)
    requires WellFormed(entries)
    ensures Depth(entries) == 0 <==> LeaveEntries(entries, t, freshRestart).Err?
    ensures Depth(entries) == 0 ==>
      LeaveEntries(entries, t, freshRestart) == Err(if freshRestart then LeftAfterFreshRestart else LeftBeforeThisLog)
    ensures LeaveEntries(entries, t, freshRestart).Ok? ==>
      var r := LeaveEntries(entries, t, freshRestart).value;
      && WellFormed(r)
      && Depth(r) + 1 == Depth(entries)
      && |r| == |entries| && r[..|r| - 1] == entries[..|entries| - 1]
      && r[|r| - 1].join == entries[|entries| - 1].join
      && (Depth(entries) == 1 ==> r[|r| - 1].leave == At(t))
  {
  }

  /** Every history the replay builds has only its last entry open. */
  lemma {:induction false} ReplayWellFormed(lines: seq<LogLine>, freshRestart: bool)
    ensures Replay(lines, freshRestart).Ok? ==>
      forall p | p in Replay(lines, freshRestart).value :: WellFormed(Replay(lines, freshRestart).value[p])
  {
    if lines != [] {
      ReplayWellFormed(lines[..|lines| - 1], freshRestart);
      var prev := Replay(lines[..|lines| - 1], freshRestart);
      if prev.Ok? {
        var line := lines[|lines| - 1];
        if line.Timed? && line.kind.GameLine? {
          var p := line.kind.player;
          var entries := if p in prev.value then prev.value[p] else [];
          JoinTransition(entries, line.t);
          LeaveTransition(entries, line.t, freshRestart);
        }
      }
    }
  }

  /** Times of the lines whose time parsed never go backwards. */
  ghost predicate Chronological(lines: seq<LogLine>)
  {
    forall i, j :: 0 <= i < j < |lines| && lines[i].Timed? && lines[j].Timed? ==> lines[i].t <= lines[j].t
  }

  /** Every join in `times` happened no later than `bound`; every closed entry closes after it opens. */
  ghost predicate Ordered(times: Times, bound: int)
  {
    forall p, i | p in times && 0 <= i < |times[p]| ::
      times[p][i].join <= bound && (times[p][i].leave.At? ==> times[p][i].join <= times[p][i].leave.t)
  }

  /** No line of `lines` is later than `bound`. */
  ghost predicate Below(lines: seq<LogLine>, bound: int)
  {
    forall i :: 0 <= i < |lines| && lines[i].Timed? ==> lines[i].t <= bound
  }

  /** In a chronological file, every join precedes any later bound and every closed entry has `join <= leave`. */
  lemma {:induction false} ReplayOrdered(lines: seq<LogLine>, freshRestart: bool, bound: int)
    requires Chronological(lines) && Below(lines, bound)
    ensures Replay(lines, freshRestart).Ok? ==> Ordered(Replay(lines, freshRestart).value, bound)
  {
    if lines != [] {
      var init, line := lines[..|lines| - 1], lines[|lines| - 1];
      assert Chronological(init);
      if line.Timed? {
        assert Below(init, line.t);
        ReplayOrdered(init, freshRestart, line.t);
      } else {
        ReplayOrdered(init, freshRestart, bound);
      }
      var prev, r := Replay(init, freshRestart), Replay(lines, freshRestart);
      if r.Ok? && line.Timed? && line.kind.GameLine? {
        var p := line.kind.player;
        forall q, i | q in r.value && 0 <= i < |r.value[q]|
          ensures r.value[q][i].join <= bound
          ensures r.value[q][i].leave.At? ==> r.value[q][i].join <= r.value[q][i].leave.t
        {
          if q != p {
            assert r.value[q] == prev.value[q];
          }
        }
      }
    }
  }

  /** The latest time in `lines` (0 when none parsed). */
  function Latest(lines: seq<LogLine>): (b: int)
    ensures Below(lines, b)
  {
    if lines == [] then 0
    else
      var b := Latest(lines[..|lines| - 1]);
      var last := lines[|lines| - 1];
      assert forall i :: 0 <= i < |lines| - 1 ==> lines[i] == lines[..|lines| - 1][i];
      if last.Timed? then Max(b, last.t) else b
  }

  /** In a chronological log, every session `processFileSafe` closes has `join <= leave`. */
  lemma ClosedSessionsOrdered(lines: seq<LogLine>)
    requires Chronological(lines)
    ensures ProcessLines(lines).Ok? ==>
      forall p, i | p in ProcessLines(lines).value && 0 <= i < |ProcessLines(lines).value[p]| ::
        ProcessLines(lines).value[p][i].leave.At? ==>
          ProcessLines(lines).value[p][i].join <= ProcessLines(lines).value[p][i].leave.t
  {
    if lines != [] && lines[0].Timed? {
      var body := Body(lines);
      assert Chronological(body) by {
        if FreshRestart(lines) {
          forall i, j | 0 <= i < j < |body| && body[i].Timed? && body[j].Timed? ensures body[i].t <= body[j].t {
            assert body[i] == lines[i + 1] && body[j] == lines[j + 1];
          }
        }
      }
      ReplayOrdered(body, FreshRestart(lines), Latest(body));
    }
  }


  /** Once the replay has raised, later lines do not matter. */
  lemma {:induction false} ReplayErrSticky(lines: seq<LogLine>, k: nat, freshRestart: bool)
    requires k <= |lines| && Replay(lines[..k], freshRestart).Err?
    ensures Replay(lines, freshRestart) == Replay(lines[..k], freshRestart)
    decreases |lines| - k
  {
    if k < |lines| {
      assert lines[..k + 1][..k] == lines[..k];
      ReplayErrSticky(lines, k + 1, freshRestart);
    } else {
      assert lines[..k] == lines;
    }
  }

  // ---------------------------------------------------------------------------------------
  // Slots

  /** The leave time `get_slots` uses: open entries end at `lastEvent`; a double join has none (TypeError). */
  function LeaveTime(e: Entry, lastEvent: int): Option<int>
  {
    match e.leave
    case At(t) => Some(t)
    case StillOnline => Some(lastEvent)
    case DoubleJoin => None
  }

  /** The session `get_slots` spreads for an entry; a double join has none. */
  function SpanOf(e: Entry, lastEvent: int): Option<Span>
  {
    match LeaveTime(e, lastEvent)
    case None => None
    case Some(l) => Some(Span(e.join, l))
  }

  function Spans(entries: seq<Entry>, lastEvent: int): seq<Option<Span>>
  {
    seq(|entries|, j requires 0 <= j < |entries| => SpanOf(entries[j], lastEvent))
  }

  /** `self.times` as `get_slots` reads it. */
  function SpanTable(times: Times, lastEvent: int): Table
  {
    map p | p in times :: Spans(times[p], lastEvent)
  }

  datatype SlotError =
    | NoEvents            // TypeError: `firstEvent` or `lastEvent` is still None
    | ZeroSlotSize        // ZeroDivisionError
    | Fault(fault: SlotFault)

  /** The start of the first slot and one dictionary `player -> seconds` per slot. */
  datatype SlotTable = SlotTable(firstSlotStart: int, slots: seq<map<string, int>>)

  /** Every entry that has a leave time leaves no earlier than it joined. */
  ghost predicate EndsAfterJoin(entries: seq<Entry>, lastEvent: int)
  {
    forall j | 0 <= j < |entries| :: LeaveTime(entries[j], lastEvent).Some? ==> entries[j].join <= LeaveTime(entries[j], lastEvent).value
  }

  /**
   * Conservation of `get_slots`: when it succeeds, a player's values over all slots add up to
   * the time that player played, open sessions counted up to `lastEvent`.
   */
  lemma GetSlotsConservesTime(times: Times, p: string, startSlot: int, n: nat, size: int, lastEvent: int)
    requires size > 0 && p in times && EndsAfterJoin(times[p], lastEvent)
    requires AllFit(SpanTable(times, lastEvent), startSlot, n, size)
    ensures Column(SlotsOf(SpanTable(times, lastEvent), startSlot, n, size), p) == PlayTime(Spans(times[p], lastEvent))
  {
    SlotsConserveTime(SpanTable(times, lastEvent), p, startSlot, n, size);
  }

  /**
   * When no entry is a double join and every session lies between `firstEvent` and
   * `lastEvent`, `get_slots` raises nothing.
   */
  lemma GetSlotsInRange(times: Times, firstEvent: int, lastEvent: int, size: int)
    requires size > 0
    requires forall p, j | p in times && 0 <= j < |times[p]| ::
      times[p][j].leave != DoubleJoin && firstEvent <= times[p][j].join && LeaveTime(times[p][j], lastEvent).value <= lastEvent
    ensures AllFit(SpanTable(times, lastEvent), FloorDiv(firstEvent, size),
                   Max(FloorDiv(lastEvent, size) - FloorDiv(firstEvent, size) + 1, 0), size)
  {
    InWindowFits(SpanTable(times, lastEvent), firstEvent, lastEvent, size);
  }

  // ---------------------------------------------------------------------------------------
  // Total times

  /** A player's total in `printTotalTimes`: `float('inf')` once an infinite leave time was added. */
  datatype Total = Finite(seconds: int) | Infinite

  function AddTotal(a: Total, b: Total): Total
  {
    if a.Infinite? || b.Infinite? then Infinite else Finite(a.seconds + b.seconds)
  }

  /** `leaveTime - joinTime` when `joinTime < leaveTime`, else nothing. */
  function Clip(join: int, leave: int): int
  {
    if join < leave then leave - join else 0
  }

  /** `min(leave, before)` with `before == None` standing for `float('inf')`. */
  function CapAt(leave: int, before: Option<int>): int
  {
    if before.Some? && leave > before.value then before.value else leave
  }

  /**
   * What one entry adds to its player's total in `printTotalTimes(after, before)`. Python 2
   * comparisons decide the sentinels: a string is never below `after` and always above
   * `before`, and `None` (no `lastEvent`) is below everything.
   */
  function EntryTotal(e: Entry, after: int, before: Option<int>, lastEvent: Option<int>): Total
  {
    match e.leave
    case At(t) => if t < after then Finite(0) else Finite(Clip(Max(e.join, after), CapAt(t, before)))
    case StillOnline => if lastEvent.None? then Finite(0) else Finite(Clip(Max(e.join, after), CapAt(lastEvent.value, before)))
    case DoubleJoin => if before.None? then Infinite else Finite(Clip(Max(e.join, after), before.value))
  }

  function HistoryTotal(entries: seq<Entry>, after: int, before: Option<int>, lastEvent: Option<int>): Total
  {
    if entries == [] then Finite(0)
    else AddTotal(HistoryTotal(entries[..|entries| - 1], after, before, lastEvent),
                  EntryTotal(entries[|entries| - 1], after, before, lastEvent))
  }

  /** One entry adds infinity exactly for a double join in an unbounded window, and otherwise no negative time. */
  lemma EntryTotalSign(e: Entry, after: int, before: Option<int>, lastEvent: Option<int>)
    ensures EntryTotal(e, after, before, lastEvent).Infinite? <==> before.None? && e.leave == DoubleJoin
    ensures EntryTotal(e, after, before, lastEvent).Finite? ==> EntryTotal(e, after, before, lastEvent).seconds >= 0
  {
  }

  /** Some entry of the history is a double join, by recursion on the last entry. */
  predicate HasDoubleJoin(entries: seq<Entry>)
  {
    entries != [] && (HasDoubleJoin(entries[..|entries| - 1]) || entries[|entries| - 1].leave == DoubleJoin)
  }

  lemma {:induction false} HasDoubleJoinIff(entries: seq<Entry>)
    ensures HasDoubleJoin(entries) <==> exists j | 0 <= j < |entries| :: entries[j].leave == DoubleJoin
  {
    if entries != [] {
      var m := |entries| - 1;
      var init := entries[..m];
      HasDoubleJoinIff(init);
      if HasDoubleJoin(init) {
        var j :| 0 <= j < m && init[j].leave == DoubleJoin;
        assert entries[j] == init[j];
      } else if exists j | 0 <= j < |entries| :: entries[j].leave == DoubleJoin {
        var j :| 0 <= j < |entries| && entries[j].leave == DoubleJoin;
        if j < m {
          assert init[j] == entries[j];
        }
      }
    }
  }

  /** A total is infinite exactly when the window is unbounded and some entry is a double join. */
  lemma TotalInfiniteIff(entries: seq<Entry>, after: int, before: Option<int>, lastEvent: Option<int>)
    ensures HistoryTotal(entries, after, before, lastEvent).Infinite? <==>
      before.None? && exists j | 0 <= j < |entries| :: entries[j].leave == DoubleJoin
  {
    TotalInfiniteRec(entries, after, before, lastEvent);
    HasDoubleJoinIff(entries);
  }

  lemma {:induction false} TotalInfiniteRec(entries: seq<Entry>, after: int, before: Option<int>, lastEvent: Option<int>)
    ensures HistoryTotal(entries, after, before, lastEvent).Infinite? <==> before.None? && HasDoubleJoin(entries)
  {
    if entries != [] {
      TotalInfiniteRec(entries[..|entries| - 1], after, before, lastEvent);
      EntryTotalSign(entries[|entries| - 1], after, before, lastEvent);
    }
  }

  /** A finite total is never negative. */
  lemma {:induction false} TotalNonNegative(entries: seq<Entry>, after: int, before: Option<int>, lastEvent: Option<int>)
    ensures HistoryTotal(entries, after, before, lastEvent).Finite? ==> HistoryTotal(entries, after, before, lastEvent).seconds >= 0
  {
    if entries != [] {
      TotalNonNegative(entries[..|entries| - 1], after, before, lastEvent);
      EntryTotalSign(entries[|entries| - 1], after, before, lastEvent);
    }
  }

  /** Narrowing the window `[after, before]` never increases a total. */
  lemma {:induction false} TotalMonotone(entries: seq<Entry>, after1: int, before1: int, after2: int, before2: int, lastEvent: Option<int>)
    requires after1 <= after2 && before2 <= before1
    ensures var narrow, wide := HistoryTotal(entries, after2, Some(before2), lastEvent), HistoryTotal(entries, after1, Some(before1), lastEvent);
      narrow.Finite? && wide.Finite? && 0 <= narrow.seconds <= wide.seconds
  {
    if entries != [] {
      TotalMonotone(entries[..|entries| - 1], after1, before1, after2, before2, lastEvent);
    }
  }

  /** Over an unbounded window that starts before every join, the total is the play time. */
  lemma {:induction false} TotalOfWholeHistory(entries: seq<Entry>, after: int, lastEvent: int)
    requires EndsAfterJoin(entries, lastEvent)
    requires forall j | 0 <= j < |entries| :: entries[j].leave != DoubleJoin && after <= entries[j].join
    ensures HistoryTotal(entries, after, None, Some(lastEvent)) == Finite(PlayTime(Spans(entries, lastEvent)))
  {
    if entries != [] {
      var m := |entries| - 1;
      TotalOfWholeHistory(entries[..m], after, lastEvent);
      assert Spans(entries, lastEvent)[..m] == Spans(entries[..m], lastEvent);
    }
  }

  // ---------------------------------------------------------------------------------------
  // The processor

  class LogProcessor {
    var times: Times
    var processedFiles: seq<string>
    var firstEvent: Option<int>
    var lastEvent: Option<int>

    constructor ()
      ensures times == map[] && processedFiles == [] && firstEvent == None && lastEvent == None
    {
      times, processedFiles, firstEvent, lastEvent := map[], [], None, None;
    }

    /**
     * `get_slots`: one dictionary `player -> seconds played` per slot from the slot of
     * `firstEvent` to the slot of `lastEvent`. The players are visited in an unspecified order
     * (a Python 2 dictionary), so when several entries would raise, any of their raises may come out.
     */
    method GetSlots(size: int) returns (r: Result<SlotTable, SlotError>)
      ensures firstEvent.None? ==> r == Err(NoEvents)
      ensures firstEvent.Some? && size == 0 ==> r == Err(ZeroSlotSize)
      ensures firstEvent.Some? && size != 0 && lastEvent.None? ==> r == Err(NoEvents)
      ensures firstEvent.Some? && lastEvent.Some? && size != 0 ==>
        var startSlot := FloorDiv(firstEvent.value, size);
        var numSlots := Max(FloorDiv(lastEvent.value, size) - startSlot + 1, 0);
        var table := SpanTable(times, lastEvent.value);
        && (r.Ok? <==> AllFit(table, startSlot, numSlots, size))
        && (r.Ok? ==> r.value == SlotTable(startSlot * size, SlotsOf(table, startSlot, numSlots, size)))
        && (r.Err? ==> r.error.Fault? && exists p, j | p in table && 0 <= j < |table[p]| ::
                         EntryFault(table[p][j], startSlot, numSlots, size) == Some(r.error.fault))
    {
      if firstEvent.None? {
        return Err(NoEvents);
      }
      if size == 0 {
        return Err(ZeroSlotSize);
      }
      if lastEvent.None? {
        return Err(NoEvents);
      }
      var startSlot := FloorDiv(firstEvent.value, size);
      var endSlot := FloorDiv(lastEvent.value, size);
      var numSlots := endSlot - startSlot + 1;
      var spread := Spread(SpanTable(times, lastEvent.value), startSlot, numSlots, size);
      if spread.Err? {
        return Err(Fault(spread.error));
      }
      return Ok(SlotTable(startSlot * size, spread.value));
    }

    /**
     * `printTotalTimes`: each player's time inside the window `[after, before]` (`before == None`
     * is the default `float('inf')`). The printing, sorted by descending total, is not modelled.
     */
    method PrintTotalTimes(after: int, before: Option<int>) returns (total: map<string, Total>)
      ensures total.Keys == times.Keys
      ensures forall p | p in times :: total[p] == HistoryTotal(times[p], after, before, lastEvent)
    {
      total := map[];
      var rest := times.Keys;
      while rest != {}
        invariant rest <= times.Keys && total.Keys == times.Keys - rest
        invariant forall p | p in total :: total[p] == HistoryTotal(times[p], after, before, lastEvent)
        decreases rest
      {
        var player :| player in rest;
        var sum := PlayerTotal(times[player], after, before, lastEvent);
        total := total[player := sum];
        rest := rest - {player};
      }
    }

    /** The inner loop of `printTotalTimes`: one player's time inside the window. */
    static method PlayerTotal(playerTimes: seq<Entry>, after: int, before: Option<int>, lastEvent: Option<int>) returns (sum: Total)
      ensures sum == HistoryTotal(playerTimes, after, before, lastEvent)
    {
      sum := Finite(0);
      for j := 0 to |playerTimes|
        invariant sum == HistoryTotal(playerTimes[..j], after, before, lastEvent)
      {
        assert playerTimes[..j + 1][..j] == playerTimes[..j];
        var joinTime := playerTimes[j].join;
        var add: Total;
        match playerTimes[j].leave {
          case At(t) =>
            add := if t < after then Finite(0) else Finite(Clip(Max(joinTime, after), CapAt(t, before)));
          case StillOnline =>
            add := if lastEvent.None? then Finite(0) else Finite(Clip(Max(joinTime, after), CapAt(lastEvent.value, before)));
          case DoubleJoin =>
            add := if before.None? then Infinite else Finite(Clip(Max(joinTime, after), before.value));
        }
        sum := AddTotal(sum, add);
      }
      assert playerTimes[..|playerTimes|] == playerTimes;
    }

    /**
     * The loop of `processFileSafe` over the lines after the first `readline`: `new_times` built
     * from an empty dictionary, and `action_time`, starting from the first line's time.
     */
    static method ReplayLines(body: seq<LogLine>, freshRestart: bool, first: int) returns (r: Result<Times, ProcessError>, actionTime: int)
      ensures r == Replay(body, freshRestart)
      ensures r.Ok? ==> actionTime == LastTime(first, body)
    {
      actionTime := first;
      var newTimes: Times := map[];
      for i := 0 to |body|
        invariant Replay(body[..i], freshRestart) == Ok(newTimes)
        invariant actionTime == LastTime(first, body[..i])
      {
        assert body[..i + 1][..i] == body[..i];
        var line := body[i];
        if line.Untimed? {
          continue;
        }
        actionTime := line.t;
        var step := ProcessLine(newTimes, line, freshRestart);
        if step.Err? {
          r := Err(step.error);
          ReplayErrSticky(body, i + 1, freshRestart);
          return;
        }
        newTimes := step.value;
      }
      assert body[..|body|] == body;
      r := Ok(newTimes);
    }

    /** The body of `processFileSafe`'s loop for one line whose time parsed, on `new_times`. */
    static method ProcessLine(newTimes: Times, line: LogLine, freshRestart: bool) returns (r: Result<Times, ProcessError>)
      requires line.Timed?
      ensures r == ApplyLine(newTimes, line, freshRestart)
    {
      r := Ok(newTimes);
      if line.kind.GameLine? {
        var actionTime := line.t;
        var player := line.kind.player;
        var entries := if player in newTimes then newTimes[player] else [];
        var n := |entries|;
        match line.kind.action {
          case Joined =>
            if n > 0 && entries[n - 1].leave == StillOnline {
              r := Ok(newTimes[player := entries[..n - 1] + [Entry(entries[n - 1].join, DoubleJoin)]]);
            } else if n > 0 && entries[n - 1].leave == DoubleJoin {
              r := Err(MultiJoinTooDeep);
            } else {
              r := Ok(newTimes[player := entries + [Entry(actionTime, StillOnline)]]);
            }
          case Left =>
            if n > 0 && entries[n - 1].leave == StillOnline {
              r := Ok(newTimes[player := entries[..n - 1] + [Entry(entries[n - 1].join, At(actionTime))]]);
            } else if n > 0 && entries[n - 1].leave == DoubleJoin {
              r := Ok(newTimes[player := entries[..n - 1] + [Entry(entries[n - 1].join, StillOnline)]]);
            } else {
              r := Err(if freshRestart then LeftAfterFreshRestart else LeftBeforeThisLog);
            }
          case OtherAction(_) =>
            r := Err(InvalidAction);
        }
      }
    }

    /** `processFile`: replace `times` by the result of `processFileSafe`. */
    method ProcessFile(filename: string, lines: seq<LogLine>) returns (err: Option<ProcessError>)
      modifies this
      ensures err.None? <==> ProcessLines(lines).Ok?
      ensures err.None? ==> times == ProcessLines(lines).value
      ensures err.Some? ==> times == old(times) && err.value == ProcessLines(lines).error
      ensures firstEvent == if |lines| > 0 && lines[0].Timed? then Some(MinOpt(old(firstEvent), lines[0].t)) else old(firstEvent)
      ensures lastEvent == if err.None? then Some(MaxOpt(old(lastEvent), LastTime(lines[0].t, Body(lines)))) else old(lastEvent)
      ensures processedFiles == if err.None? then old(processedFiles) + [filename] else old(processedFiles)
    {
      var r := ProcessFileSafe(filename, lines);
      match r {
        case Ok(t) => times := t; err := None;
        case Err(x) => err := Some(x);
      }
    }

    /**
     * `processFileSafe`: replay one file's lines into a fresh dictionary. `firstEvent` takes the
     * first line's time even when a later line raises; `lastEvent` and `processedFiles` change
     * only on success.
     */
    method ProcessFileSafe(filename: string, lines: seq<LogLine>) returns (r: Result<Times, ProcessError>)
      modifies this`firstEvent, this`lastEvent, this`processedFiles
      ensures r == ProcessLines(lines)
      ensures firstEvent == if |lines| > 0 && lines[0].Timed? then Some(MinOpt(old(firstEvent), lines[0].t)) else old(firstEvent)
      ensures lastEvent == if r.Ok? then Some(MaxOpt(old(lastEvent), LastTime(lines[0].t, Body(lines)))) else old(lastEvent)
      ensures processedFiles == if r.Ok? then old(processedFiles) + [filename] else old(processedFiles)
    {
      if |lines| == 0 {
        return Err(EmptyLogFile);
      }
      if lines[0].Untimed? {
        return Err(FirstLineUntimed);
      }
      var actionTime := lines[0].t;
      firstEvent := Some(if firstEvent.None? then actionTime else Min(firstEvent.value, actionTime));
      var freshRestart := lines[0].kind == StartLine;
      var body := if freshRestart then lines[1..] else lines;
      assert body == Body(lines) && freshRestart == FreshRestart(lines);
      var last;
      r, last := ReplayLines(body, freshRestart, actionTime);
      if r.Err? {
        return;
      }
      actionTime := last;
      lastEvent := Some(if lastEvent.None? then actionTime else Max(lastEvent.value, actionTime));
      processedFiles := processedFiles + [filename];
    }
  }
}
