/**
 * scan.py: the first tracker. Every instance of its `LogProcessor` shares the class-level
 * dictionary `times` (player -> list of `(joinTime, leaveTime)`, the last possibly open with
 * leave `'?'`) and the list `processedFiles`, which the methods mutate in place, line by line;
 * a raise leaves the updates of the earlier lines behind. The file is Python 2: the string
 * `'?'` compares above every number.
 */
module Scan {
  import opened Wrappers
  import opened SlotMath
  import LP = LogProcessor

  /** One `(joinTime, leaveTime)` pair; `leave == None` is the open marker `'?'`. */
  datatype ScanEntry = ScanEntry(join: int, leave: Option<int>)

  type ScanTimes = map<string, seq<ScanEntry>>

  /** A line of the file; a game line's time is `None` when `getDateFromFile` raises on it. */
  datatype ScanLine =
    | StartLine                                                    // `Starting minecraft server ...`
    | GameLine(time: Option<int>, player: string, action: LP.Action)
    | OtherLine

  datatype ScanError =
    | EmptyLogFile             // ValueError('Empty log file')
    | BadTimestamp             // the ValueError of `strptime` on a game line
    | DoubleJoin               // ValueError('Double join')
    | LeftAfterFreshRestart    // ValueError('Player ... left without logging in ...')
    | InvalidAction            // ValueError('Invalid action ...')

  /** The dictionary after some lines, and the raise that stopped the file, if any. */
  datatype Outcome = Outcome(times: ScanTimes, error: Option<ScanError>)

  /** One line of `processFile`'s loop. */
  function ApplyScanLine(times: ScanTimes, line: ScanLine, freshRestart: bool): Outcome
  {
    if !line.GameLine? then Outcome(times, None)
    else if line.time.None? then Outcome(times, Some(BadTimestamp))
    else
      var p, t := line.player, line.time.value;
      var entries := if p in times then times[p] else [];
      var n := |entries|;
      var registered := times[p := entries];   // `self.times[player] = []` for a new player
      match line.action
      case Joined =>
        if n > 0 && entries[n - 1].leave.None? then Outcome(registered, Some(DoubleJoin))
        else Outcome(times[p := entries + [ScanEntry(t, None)]], None)
      case Left =>
        if n > 0 && entries[n - 1].leave.None? then Outcome(times[p := entries[..n - 1] + [ScanEntry(entries[n - 1].join, Some(t))]], None)
        else if freshRestart then Outcome(registered, Some(LeftAfterFreshRestart))
        else Outcome(registered, None)
      case OtherAction(_) => Outcome(registered, Some(InvalidAction))
  }

  /** The lines in order, stopping at the first raise. */
  function ScanReplay(times: ScanTimes, lines: seq<ScanLine>, freshRestart: bool): Outcome
  {
    if lines == [] then Outcome(times, None)
    else
      var prev := ScanReplay(times, lines[..|lines| - 1], freshRestart);
      if prev.error.Some? then prev else ApplyScanLine(prev.times, lines[|lines| - 1], freshRestart)
  }

  /** Once a line has raised, later lines do not matter. */
  lemma {:induction false} ScanReplayErrSticky(times: ScanTimes, lines: seq<ScanLine>, k: nat, freshRestart: bool)
    requires k <= |lines| && ScanReplay(times, lines[..k], freshRestart).error.Some?
    ensures ScanReplay(times, lines, freshRestart) == ScanReplay(times, lines[..k], freshRestart)
    decreases |lines| - k
  {
    if k < |lines| {
      assert lines[..k + 1][..k] == lines[..k];
      ScanReplayErrSticky(times, lines, k + 1, freshRestart);
    } else {
      assert lines[..k] == lines;
    }
  }

  /** Only the last entry of a history may be open. */
  ghost predicate WellFormed(entries: seq<ScanEntry>)
  {
    forall i | 0 <= i < |entries| - 1 :: entries[i].leave.Some?
  }

  ghost predicate AllWellFormed(times: ScanTimes)
  {
    forall p | p in times :: WellFormed(times[p])
  }

  /**
   * A join raises 'Double join' exactly when the player's last entry is open, and otherwise
   * appends `(t, '?')`. A leave closes an open last entry at `t`; with nothing open it raises
   * exactly after a fresh restart. Either way a player seen for the first time is filed with an
   * empty history first, which stays behind when the line raises.
   */
  lemma ScanTransitions(times: ScanTimes, t: int, p: string, freshRestart: bool)
    ensures var o := ApplyScanLine(times, GameLine(Some(t), p, LP.Joined), freshRestart);
      var entries := if p in times then times[p] else [];
      && (o.error == Some(DoubleJoin) <==> entries != [] && entries[|entries| - 1].leave.None?)
      && (o.error.None? <==> !(entries != [] && entries[|entries| - 1].leave.None?))
      && (o.error.None? ==> o.times == times[p := entries + [ScanEntry(t, None)]])
      && (o.error.Some? ==> o.times == times[p := entries])
    ensures var o := ApplyScanLine(times, GameLine(Some(t), p, LP.Left), freshRestart);
      var entries := if p in times then times[p] else [];
      var online := entries != [] && entries[|entries| - 1].leave.None?;
      && (o.error.Some? <==> !online && freshRestart)
      && (online ==> o.times == times[p := entries[..|entries| - 1] + [ScanEntry(entries[|entries| - 1].join, Some(t))]])
      && (!online ==> o.times == times[p := entries])
  {
  }

  /** Every history the file builds, even one cut short by a raise, has only its last entry open. */
  lemma {:induction false} ScanReplayWellFormed(times: ScanTimes, lines: seq<ScanLine>, freshRestart: bool)
    requires AllWellFormed(times)
    ensures AllWellFormed(ScanReplay(times, lines, freshRestart).times)
  {
    if lines != [] {
      ScanReplayWellFormed(times, lines[..|lines| - 1], freshRestart);
    }
  }

  // ---------------------------------------------------------------------------------------
  // Slots

  /** `self.times` as `getSlots` reads it: an open `'?'` leave is not a number. */
  function ScanTable(times: ScanTimes): Table
  {
    map p | p in times :: seq(|times[p]|, j requires 0 <= j < |times[p]| =>
      if times[p][j].leave.Some? then Some(Span(times[p][j].join, times[p][j].leave.value)) else None)
  }

  datatype ScanSlotError =
    | NoPlayers           // ValueError: `min()` of an empty sequence
    | EmptyHistory        // IndexError: `ptimes[0]` of a player whose only line was an ignored leave
    | ZeroSlotSize        // ZeroDivisionError
    | OpenAtEnd           // ValueError: `int('?')`, the maximum of the last leave times being `'?'`
    | Fault(fault: SlotFault)

  /** Every player has at least one entry, and there is a player. */
  predicate Populated(times: ScanTimes)
  {
    |times| > 0 && forall p | p in times :: times[p] != []
  }

  /** Some player's last entry is still open. */
  predicate SomeOpenAtEnd(times: ScanTimes)
    requires Populated(times)
  {
    exists p | p in times :: times[p][|times[p]| - 1].leave.None?
  }

  /** `lo` is `min(ptimes[0][0] for ptimes in times.values())`. */
  ghost predicate IsMinFirstJoin(times: ScanTimes, lo: int)
    requires Populated(times)
  {
    (exists p | p in times :: times[p][0].join == lo) && forall p | p in times :: lo <= times[p][0].join
  }

  /** `hi` is `max(ptimes[-1][1] for ptimes in times.values())`, every last entry being closed. */
  ghost predicate IsMaxLastLeave(times: ScanTimes, hi: int)
    requires Populated(times) && !SomeOpenAtEnd(times)
  {
    (exists p | p in times :: times[p][|times[p]| - 1].leave.value == hi) &&
    forall p | p in times :: times[p][|times[p]| - 1].leave.value <= hi
  }

  /** The `min(...)` of `getSlots`. */
  method MinFirstJoin(times: ScanTimes) returns (lo: int)
    requires Populated(times)
    ensures IsMinFirstJoin(times, lo)
  {
    var p0 :| p0 in times;
    lo := times[p0][0].join;
    var done := {p0};
    var rest := times.Keys - {p0};
    while rest != {}
      invariant done <= times.Keys && p0 in done && rest == times.Keys - done
      invariant exists p | p in done :: times[p][0].join == lo
      invariant forall p | p in done :: lo <= times[p][0].join
      decreases rest
    {
      var p :| p in rest;
      if times[p][0].join < lo {
        lo := times[p][0].join;
      }
      done := done + {p};
      rest := rest - {p};
    }
  }

  /** The `max(...)` of `getSlots`, once no last entry is open. */
  method MaxLastLeave(times: ScanTimes) returns (hi: int)
    requires Populated(times) && !SomeOpenAtEnd(times)
    ensures IsMaxLastLeave(times, hi)
  {
    var p0 :| p0 in times;
    hi := times[p0][|times[p0]| - 1].leave.value;
    var done := {p0};
    var rest := times.Keys - {p0};
    while rest != {}
      invariant done <= times.Keys && p0 in done && rest == times.Keys - done
      invariant exists p | p in done :: times[p][|times[p]| - 1].leave.value == hi
      invariant forall p | p in done :: times[p][|times[p]| - 1].leave.value <= hi
      decreases rest
    {
      var p :| p in rest;
      var l := times[p][|times[p]| - 1].leave.value;
      if l > hi {
        hi := l;
      }
      done := done + {p};
      rest := rest - {p};
    }
  }

  /** The bounds are unique, so a statement about some minimum and maximum is about all. */
  lemma MinMaxUnique(times: ScanTimes, lo: int, hi: int)
    requires Populated(times) && !SomeOpenAtEnd(times) && IsMinFirstJoin(times, lo) && IsMaxLastLeave(times, hi)
    ensures forall lo', hi' | IsMinFirstJoin(times, lo') && IsMaxLastLeave(times, hi') :: lo' == lo && hi' == hi
  {
  }

  /** The entries of a history are closed, each leaves after it joins and before the next joins. */
  ghost predicate ClosedChronological(entries: seq<ScanEntry>)
  {
    (forall j | 0 <= j < |entries| :: entries[j].leave.Some? && entries[j].join <= entries[j].leave.value) &&
    (forall i, j | 0 <= i < j < |entries| :: entries[i].leave.value <= entries[j].join)
  }

  /**
   * With closed chronological histories every session lies between the first join and the last
   * leave, so `getSlots` raises no slot-index error.
   */
  lemma ScanSlotsInRange(times: ScanTimes, lo: int, hi: int, size: int)
    requires size > 0 && Populated(times)
    requires forall p | p in times :: ClosedChronological(times[p])
    requires !SomeOpenAtEnd(times) && IsMinFirstJoin(times, lo) && IsMaxLastLeave(times, hi)
    ensures AllFit(ScanTable(times), FloorDiv(lo, size), Max(FloorDiv(hi, size) - FloorDiv(lo, size) + 1, 0), size)
  {
    var table: Table := ScanTable(times);
    forall p, j | p in table && 0 <= j < |table[p]|
      ensures table[p][j].Some? && lo <= table[p][j].value.join && table[p][j].value.leave <= hi
    {
      var es := times[p];
      var m := |es| - 1;
      assert lo <= es[0].join;
      assert es[m].leave.value <= hi;
      if j > 0 {
        assert es[0].join <= es[0].leave.value <= es[j].join;
      }
      if j < m {
        assert es[j].leave.value <= es[m].join <= es[m].leave.value;
      }
    }
    InWindowFits(table, lo, hi, size);
  }

  /** Conservation in `getSlots`: a player's slot values add up to the length of the player's sessions. */
  lemma ScanSlotsConserveTime(times: ScanTimes, p: string, startSlot: int, n: nat, size: int)
    requires size > 0 && p in times && ClosedChronological(times[p])
    requires AllFit(ScanTable(times), startSlot, n, size)
    ensures Column(SlotsOf(ScanTable(times), startSlot, n, size), p) == PlayTime(ScanTable(times)[p])
  {
    SlotsConserveTime(ScanTable(times), p, startSlot, n, size);
  }

  // ---------------------------------------------------------------------------------------
  // Total times

  /**
   * What one entry adds in `printTotalTimes(after, before)` (`before == None` is
   * `float('inf')`): an open entry is never skipped and is cut at `before`.
   */
  function EntryTotal(e: ScanEntry, after: int, before: Option<int>): LP.Total
  {
    match e.leave
    case Some(l) => if l < after then LP.Finite(0) else LP.Finite(LP.Clip(Max(e.join, after), LP.CapAt(l, before)))
    case None => if before.None? then LP.Infinite else LP.Finite(LP.Clip(Max(e.join, after), before.value))
  }

  function HistoryTotal(entries: seq<ScanEntry>, after: int, before: Option<int>): LP.Total
  {
    if entries == [] then LP.Finite(0)
    else LP.AddTotal(HistoryTotal(entries[..|entries| - 1], after, before), EntryTotal(entries[|entries| - 1], after, before))
  }

  /** One entry adds infinity exactly for an open entry in an unbounded window, and otherwise no negative time. */
  lemma EntryTotalSign(e: ScanEntry, after: int, before: Option<int>)
    ensures EntryTotal(e, after, before).Infinite? <==> before.None? && e.leave.None?
    ensures EntryTotal(e, after, before).Finite? ==> EntryTotal(e, after, before).seconds >= 0
  {
  }

  /** Some entry of the history is open, by recursion on the last entry. */
  predicate HasOpenEntry(entries: seq<ScanEntry>)
  {
    entries != [] && (HasOpenEntry(entries[..|entries| - 1]) || entries[|entries| - 1].leave.None?)
  }

  lemma {:induction false} HasOpenEntryIff(entries: seq<ScanEntry>)
    ensures HasOpenEntry(entries) <==> exists j | 0 <= j < |entries| :: entries[j].leave.None?
  {
    if entries != [] {
      var m := |entries| - 1;
      var init := entries[..m];
      HasOpenEntryIff(init);
      if HasOpenEntry(init) {
        var j :| 0 <= j < m && init[j].leave.None?;
        assert entries[j] == init[j];
      } else {
        assert forall j | 0 <= j < m :: init[j] == entries[j];
      }
    }
  }

  /** Totals are infinite exactly when the window is unbounded and an entry is open; else non-negative. */
  lemma TotalInfiniteIff(entries: seq<ScanEntry>, after: int, before: Option<int>)
    ensures HistoryTotal(entries, after, before).Infinite? <==>
      before.None? && exists j | 0 <= j < |entries| :: entries[j].leave.None?
    ensures HistoryTotal(entries, after, before).Finite? ==> HistoryTotal(entries, after, before).seconds >= 0
  {
    TotalInfiniteRec(entries, after, before);
    HasOpenEntryIff(entries);
  }

  lemma {:induction false} TotalInfiniteRec(entries: seq<ScanEntry>, after: int, before: Option<int>)
    ensures HistoryTotal(entries, after, before).Infinite? <==> before.None? && HasOpenEntry(entries)
    ensures HistoryTotal(entries, after, before).Finite? ==> HistoryTotal(entries, after, before).seconds >= 0
  {
    if entries != [] {
      TotalInfiniteRec(entries[..|entries| - 1], after, before);
      EntryTotalSign(entries[|entries| - 1], after, before);
    }
  }

  /** Over an unbounded window starting before every join, a closed history's total is its play time. */
  lemma {:induction false} TotalOfWholeHistory(times: ScanTimes, p: string, after: int)
    requires p in times && ClosedChronological(times[p])
    requires forall j | 0 <= j < |times[p]| :: after <= times[p][j].join
    ensures HistoryTotal(times[p], after, None) == LP.Finite(PlayTime(ScanTable(times)[p]))
  {
    WholeHistory(times[p], ScanTable(times)[p], after);
  }

  lemma {:induction false} WholeHistory(entries: seq<ScanEntry>, spans: seq<Option<Span>>, after: int)
    requires |spans| == |entries|
    requires forall j | 0 <= j < |entries| ::
      entries[j].leave.Some? && after <= entries[j].join <= entries[j].leave.value &&
      spans[j] == Some(Span(entries[j].join, entries[j].leave.value))
    ensures HistoryTotal(entries, after, None) == LP.Finite(PlayTime(spans))
  {
    if entries != [] {
      var m := |entries| - 1;
      WholeHistory(entries[..m], spans[..m], after);
    }
  }

  // ---------------------------------------------------------------------------------------
  // Histogram rows

  /** `len(bars)`: `'_'` and the eight block characters. */
  const NUM_BARS: int := 9

  datatype HistogramError =
    | BarDivisionByZero    // ZeroDivisionError: `slotSize + 1 == 0`
    | BarIndexOutOfRange   // IndexError on `bars[...]`

  /** `bars[ontime * numBars // (slotSize + 1)]` as an index into `bars`, Python's negative indices included. */
  function BarSlot(ontime: int, slotSize: int): Result<int, HistogramError>
  {
    if slotSize + 1 == 0 then Err(BarDivisionByZero)
    else
      var k := FloorDiv(ontime * NUM_BARS, slotSize + 1);
      if -NUM_BARS <= k < 0 then Ok(k + NUM_BARS)
      else if 0 <= k < NUM_BARS then Ok(k)
      else Err(BarIndexOutOfRange)
  }

  /** A slot holding between 1 and `slotSize` seconds is drawn with one of the nine bars, never raising. */
  lemma BarSlotInRange(ontime: int, slotSize: int)
    requires 0 < ontime <= slotSize
    ensures BarSlot(ontime, slotSize).Ok?
    ensures BarSlot(ontime, slotSize).value == FloorDiv(ontime * NUM_BARS, slotSize + 1)
    ensures 0 <= BarSlot(ontime, slotSize).value < NUM_BARS
  {
    var k := FloorDiv(ontime * NUM_BARS, slotSize + 1);
    if k >= NUM_BARS {
      SlotStartMono(NUM_BARS, k, slotSize + 1);
    }
  }

  /** One three-character cell of a player's row: `' ' + 2 * bars[level]`, or three spaces. */
  datatype Cell = Bar(level: int) | Blank

  /** The slot with index `i` starts inside `[after, before)`. */
  predicate Visible(slotStartTime: int, i: int, slotSize: int, after: int, before: int)
  {
    after <= slotStartTime + i * slotSize < before
  }

  /** The cell of player `p` for one slot (an erroneous bar shows as `Bar(-1)`; it never reaches a row). */
  function CellOf(slot: map<string, int>, p: string, slotSize: int): Cell
  {
    var ontime := Get(slot, p);
    if ontime > 0 then Bar(if BarSlot(ontime, slotSize).Ok? then BarSlot(ontime, slotSize).value else -1) else Blank
  }

  /** Player `p`'s row over the visible slots among the first `n`. */
  function Row(slots: seq<map<string, int>>, p: string, n: nat, slotStartTime: int, slotSize: int, after: int, before: int): seq<Cell>
    requires n <= |slots|
  {
    if n == 0 then []
    else Row(slots, p, n - 1, slotStartTime, slotSize, after, before) +
         (if Visible(slotStartTime, n - 1, slotSize, after, before) then [CellOf(slots[n - 1], p, slotSize)] else [])
  }

  /** `skippedSpace`: one blank cell per visible slot among the first `n`. */
  function Blanks(slots: seq<map<string, int>>, n: nat, slotStartTime: int, slotSize: int, after: int, before: int): seq<Cell>
    requires n <= |slots|
  {
    if n == 0 then []
    else Blanks(slots, n - 1, slotStartTime, slotSize, after, before) +
         (if Visible(slotStartTime, n - 1, slotSize, after, before) then [Blank] else [])
  }

  /** The players with a key in some visible slot among the first `n`. */
  function Seen(slots: seq<map<string, int>>, n: nat, slotStartTime: int, slotSize: int, after: int, before: int): set<string>
    requires n <= |slots|
  {
    set i, p | 0 <= i < n && Visible(slotStartTime, i, slotSize, after, before) && p in slots[i] :: p
  }

  /** A visible slot among the first `n` whose bar raises. */
  predicate BarFails(slots: seq<map<string, int>>, n: nat, slotStartTime: int, slotSize: int, after: int, before: int)
    requires n <= |slots|
  {
    exists i, p | 0 <= i < n && Visible(slotStartTime, i, slotSize, after, before) && p in slots[i] ::
      slots[i][p] > 0 && BarSlot(slots[i][p], slotSize).Err?
  }

  /** A player absent from the visible slots so far has a blank row. */
  lemma {:induction false} UnseenRowBlank(slots: seq<map<string, int>>, p: string, n: nat, slotStartTime: int, slotSize: int, after: int, before: int)
    requires n <= |slots| && p !in Seen(slots, n, slotStartTime, slotSize, after, before)
    ensures Row(slots, p, n, slotStartTime, slotSize, after, before) == Blanks(slots, n, slotStartTime, slotSize, after, before)
  {
    if n > 0 {
      assert Seen(slots, n - 1, slotStartTime, slotSize, after, before) <= Seen(slots, n, slotStartTime, slotSize, after, before);
      UnseenRowBlank(slots, p, n - 1, slotStartTime, slotSize, after, before);
      if Visible(slotStartTime, n - 1, slotSize, after, before) {
        assert p !in slots[n - 1];
      }
    }
  }

  /** `for player in slot.keys(): if player not in lines: lines[player] = skippedSpace`. */
  method AddNewPlayers(lines: map<string, seq<Cell>>, slot: map<string, int>, skipped: seq<Cell>) returns (r: map<string, seq<Cell>>)
    ensures r.Keys == lines.Keys + slot.Keys
    ensures forall p | p in r :: r[p] == if p in lines then lines[p] else skipped
  {
    r := lines;
    var rest := slot.Keys;
    while rest != {}
      invariant rest <= slot.Keys
      invariant forall p :: p in r <==> p in lines || (p in slot && p !in rest)
      invariant forall p | p in r :: r[p] == if p in lines then lines[p] else skipped
      decreases rest
    {
      var player :| player in rest;
      if player !in r {
        r := r[player := skipped];
      }
      rest := rest - {player};
    }
  }

  /** `for player in lines.keys(): lines[player] += <cell>`, raising on a bad bar index. */
  method AppendCells(lines: map<string, seq<Cell>>, slot: map<string, int>, slotSize: int) returns (r: Result<map<string, seq<Cell>>, HistogramError>)
    ensures r.Err? <==> exists p | p in lines :: Get(slot, p) > 0 && BarSlot(Get(slot, p), slotSize).Err?
    ensures r.Err? ==> r.error == if slotSize + 1 == 0 then BarDivisionByZero else BarIndexOutOfRange
    ensures r.Ok? ==> r.value.Keys == lines.Keys && forall p | p in lines :: r.value[p] == lines[p] + [CellOf(slot, p, slotSize)]
  {
    var out := lines;
    var rest := lines.Keys;
    while rest != {}
      invariant rest <= lines.Keys
      invariant forall p :: p in out <==> p in lines
      invariant forall p | p in lines :: out[p] == if p in rest then lines[p] else lines[p] + [CellOf(slot, p, slotSize)]
      invariant forall p | p in lines && p !in rest :: !(Get(slot, p) > 0 && BarSlot(Get(slot, p), slotSize).Err?)
      decreases rest
    {
      var player :| player in rest;
      var ontime := if player in slot then slot[player] else 0;
      var cell: Cell;
      if ontime > 0 {
        var bar := BarSlot(ontime, slotSize);
        if bar.Err? {
          return Err(bar.error);
        }
        cell := Bar(bar.value);
      } else {
        cell := Blank;
      }
      out := out[player := lines[player] + [cell]];
      rest := rest - {player};
    }
    return Ok(out);
  }

  lemma SeenStep(slots: seq<map<string, int>>, i: nat, slotStartTime: int, slotSize: int, after: int, before: int)
    requires i < |slots|
    ensures Seen(slots, i + 1, slotStartTime, slotSize, after, before) ==
      Seen(slots, i, slotStartTime, slotSize, after, before) + (if Visible(slotStartTime, i, slotSize, after, before) then slots[i].Keys else {})
  {
  }

  lemma BarFailsStep(slots: seq<map<string, int>>, i: nat, slotStartTime: int, slotSize: int, after: int, before: int)
    requires i < |slots|
    ensures BarFails(slots, i + 1, slotStartTime, slotSize, after, before) <==>
      BarFails(slots, i, slotStartTime, slotSize, after, before) ||
      (Visible(slotStartTime, i, slotSize, after, before) &&
       exists p | p in slots[i] :: slots[i][p] > 0 && BarSlot(slots[i][p], slotSize).Err?)
  {
    if BarFails(slots, i + 1, slotStartTime, slotSize, after, before) {
      var ii, p :| 0 <= ii < i + 1 && Visible(slotStartTime, ii, slotSize, after, before) && p in slots[ii] &&
                   slots[ii][p] > 0 && BarSlot(slots[ii][p], slotSize).Err?;
      if ii == i {
        assert p in slots[i] && slots[i][p] > 0 && BarSlot(slots[i][p], slotSize).Err?;
      }
    }
  }

  /**
   * The row-building loop of `drawHistogram` over the result of `getSlots`: every player seen in
   * a slot starting inside `[after, before)` gets one cell per such slot, blank before the
   * player's first appearance.
   */
  method HistogramRows(slotStartTime: int, slots: seq<map<string, int>>, slotSize: int, after: int, before: int)
    returns (r: Result<map<string, seq<Cell>>, HistogramError>)
    ensures r.Err? <==> BarFails(slots, |slots|, slotStartTime, slotSize, after, before)
    ensures r.Err? ==> r.error == if slotSize + 1 == 0 then BarDivisionByZero else BarIndexOutOfRange
    ensures r.Ok? ==> r.value.Keys == Seen(slots, |slots|, slotStartTime, slotSize, after, before)
    ensures r.Ok? ==> forall p | p in r.value :: r.value[p] == Row(slots, p, |slots|, slotStartTime, slotSize, after, before)
  {
    var lines: map<string, seq<Cell>> := map[];
    var skipped: seq<Cell> := [];
    for i := 0 to |slots|
      invariant skipped == Blanks(slots, i, slotStartTime, slotSize, after, before)
      invariant forall p :: p in lines <==> p in Seen(slots, i, slotStartTime, slotSize, after, before)
      invariant forall p | p in lines :: lines[p] == Row(slots, p, i, slotStartTime, slotSize, after, before)
      invariant !BarFails(slots, i, slotStartTime, slotSize, after, before)
    {
      if slotStartTime + i * slotSize < after || slotStartTime + i * slotSize >= before {
        HiddenSlot(slots, i, slotStartTime, slotSize, after, before);
        continue;
      }
      var step := AddSlot(slots, i, slotStartTime, slotSize, after, before, lines, skipped);
      if step.Err? {
        BarFailsMono(slots, i + 1, |slots|, slotStartTime, slotSize, after, before);
        return Err(step.error);
      }
      lines := step.value;
      skipped := skipped + [Blank];
    }
    assert lines.Keys == Seen(slots, |slots|, slotStartTime, slotSize, after, before);
    return Ok(lines);
  }

  /** A slot starting outside `[after, before)` adds no cell, no player and no failure. */
  lemma HiddenSlot(slots: seq<map<string, int>>, i: nat, slotStartTime: int, slotSize: int, after: int, before: int)
    requires i < |slots| && !Visible(slotStartTime, i, slotSize, after, before)
    ensures Blanks(slots, i + 1, slotStartTime, slotSize, after, before) == Blanks(slots, i, slotStartTime, slotSize, after, before)
    ensures Seen(slots, i + 1, slotStartTime, slotSize, after, before) == Seen(slots, i, slotStartTime, slotSize, after, before)
    ensures forall p :: Row(slots, p, i + 1, slotStartTime, slotSize, after, before) == Row(slots, p, i, slotStartTime, slotSize, after, before)
    ensures BarFails(slots, i + 1, slotStartTime, slotSize, after, before) == BarFails(slots, i, slotStartTime, slotSize, after, before)
  {
    SeenStep(slots, i, slotStartTime, slotSize, after, before);
    BarFailsStep(slots, i, slotStartTime, slotSize, after, before);
  }

  /** One visible slot of the row-building loop: new players get the blanks so far, then every row gets its cell. */
  method AddSlot(slots: seq<map<string, int>>, i: nat, slotStartTime: int, slotSize: int, after: int, before: int,
                 lines: map<string, seq<Cell>>, skipped: seq<Cell>)
    returns (r: Result<map<string, seq<Cell>>, HistogramError>)
    requires i < |slots| && Visible(slotStartTime, i, slotSize, after, before)
    requires skipped == Blanks(slots, i, slotStartTime, slotSize, after, before)
    requires forall p :: p in lines <==> p in Seen(slots, i, slotStartTime, slotSize, after, before)
    requires forall p | p in lines :: lines[p] == Row(slots, p, i, slotStartTime, slotSize, after, before)
    requires !BarFails(slots, i, slotStartTime, slotSize, after, before)
    ensures r.Err? <==> BarFails(slots, i + 1, slotStartTime, slotSize, after, before)
    ensures r.Err? ==> r.error == if slotSize + 1 == 0 then BarDivisionByZero else BarIndexOutOfRange
    ensures r.Ok? ==> forall p :: p in r.value <==> p in Seen(slots, i + 1, slotStartTime, slotSize, after, before)
    ensures r.Ok? ==> forall p | p in r.value :: r.value[p] == Row(slots, p, i + 1, slotStartTime, slotSize, after, before)
    ensures r.Ok? ==> skipped + [Blank] == Blanks(slots, i + 1, slotStartTime, slotSize, after, before)
  {
    SeenStep(slots, i, slotStartTime, slotSize, after, before);
    BarFailsStep(slots, i, slotStartTime, slotSize, after, before);
    var slot := slots[i];
    var widened := AddNewPlayers(lines, slot, skipped);
    forall p | p in widened
      ensures widened[p] == Row(slots, p, i, slotStartTime, slotSize, after, before)
    {
      if p !in lines {
        UnseenRowBlank(slots, p, i, slotStartTime, slotSize, after, before);
      }
    }
    r := AppendCells(widened, slot, slotSize);
    if r.Err? {
      var p :| p in widened && Get(slot, p) > 0 && BarSlot(Get(slot, p), slotSize).Err?;
      assert p in slot;
    }
  }

  lemma BarFailsMono(slots: seq<map<string, int>>, n: nat, m: nat, slotStartTime: int, slotSize: int, after: int, before: int)
    requires n <= m <= |slots| && BarFails(slots, n, slotStartTime, slotSize, after, before)
    ensures BarFails(slots, m, slotStartTime, slotSize, after, before)
  {
    var i, p :| 0 <= i < n && Visible(slotStartTime, i, slotSize, after, before) && p in slots[i] &&
                slots[i][p] > 0 && BarSlot(slots[i][p], slotSize).Err?;
    assert 0 <= i < m;
  }

  /** Class attributes of scan.py's `LogProcessor`, shared by all its instances. */
  /** Where the base name of `path` starts: just after its last `/`, or 0 when it has none. */
  function BaseStart(path: string): (i: nat)
    ensures i <= |path|
    ensures forall j | i <= j < |path| :: path[j] != '/'
    ensures i > 0 ==> path[i - 1] == '/'
    decreases |path|
  {
    if path == [] || path[|path| - 1] == '/' then |path| else BaseStart(path[..|path| - 1])
  }

  /** `os.path.basename`: the part of the path after its last `/`, all of it when there is none. */
  function Basename(path: string): string
  {
    path[BaseStart(path)..]
  }

  /** The base name is a suffix of the path without `/`, and either the whole path or preceded by `/`. */
  lemma BasenameIsLastPart(path: string)
    ensures var r := Basename(path);
      && |r| <= |path| && r == path[|path| - |r|..]
      && '/' !in r
      && (|r| < |path| ==> path[|path| - |r| - 1] == '/')
  {
    var i := BaseStart(path);
    var r := Basename(path);
    assert forall j | 0 <= j < |r| :: r[j] == path[i + j];
  }

  class SharedState {
    var times: ScanTimes
    var processedFiles: seq<string>

    constructor ()
      ensures times == map[] && processedFiles == []
    {
      times, processedFiles := map[], [];
    }
  }

  class LogProcessor {
    /** The class object whose attributes `self.times` and `self.processedFiles` resolve to. */
    const shared: SharedState

    constructor (shared: SharedState)
      ensures this.shared == shared
    {
      this.shared := shared;
    }

    /**
     * `getSlots`: slot bounds from the earliest first join and the latest last leave, then every
     * session spread as in LogProcessor.py.
     */
    method GetSlots(size: int) returns (r: Result<LP.SlotTable, ScanSlotError>)
      ensures |shared.times| == 0 ==> r == Err(NoPlayers)
      ensures |shared.times| > 0 && !Populated(shared.times) ==> r == Err(EmptyHistory)
      ensures Populated(shared.times) && size == 0 ==> r == Err(ZeroSlotSize)
      ensures Populated(shared.times) && size != 0 && SomeOpenAtEnd(shared.times) ==> r == Err(OpenAtEnd)
      ensures Populated(shared.times) && size != 0 && !SomeOpenAtEnd(shared.times) ==>
        forall lo, hi | IsMinFirstJoin(shared.times, lo) && IsMaxLastLeave(shared.times, hi) ::
          var startSlot := FloorDiv(lo, size);
          var numSlots := Max(FloorDiv(hi, size) - startSlot + 1, 0);
          var table := ScanTable(shared.times);
          && (r.Ok? <==> AllFit(table, startSlot, numSlots, size))
          && (r.Ok? ==> r.value == LP.SlotTable(startSlot * size, SlotsOf(table, startSlot, numSlots, size)))
          && (r.Err? ==> r.error.Fault? && exists p, j | p in table && 0 <= j < |table[p]| ::
                           EntryFault(table[p][j], startSlot, numSlots, size) == Some(r.error.fault))
    {
      if |shared.times| == 0 {
        return Err(NoPlayers);
      }
      if !Populated(shared.times) {
        return Err(EmptyHistory);
      }
      var first := MinFirstJoin(shared.times);
      if size == 0 {
        return Err(ZeroSlotSize);
      }
      var startSlot := FloorDiv(first, size);
      if SomeOpenAtEnd(shared.times) {
        return Err(OpenAtEnd);
      }
      var last := MaxLastLeave(shared.times);
      var endSlot := FloorDiv(last, size);
      var numSlots := endSlot - startSlot + 1;
      MinMaxUnique(shared.times, first, last);
      var spread := Spread(ScanTable(shared.times), startSlot, numSlots, size);
      if spread.Err? {
        return Err(Fault(spread.error));
      }
      return Ok(LP.SlotTable(startSlot * size, spread.value));
    }

    /** `printTotalTimes`: each player's time inside `[after, before]`. The sorted printing is not modelled. */
    method PrintTotalTimes(after: int, before: Option<int>) returns (total: map<string, LP.Total>)
      ensures total.Keys == shared.times.Keys
      ensures forall p | p in shared.times :: total[p] == HistoryTotal(shared.times[p], after, before)
    {
      total := map[];
      var rest := shared.times.Keys;
      while rest != {}
        invariant rest <= shared.times.Keys && total.Keys == shared.times.Keys - rest
        invariant forall p | p in total :: total[p] == HistoryTotal(shared.times[p], after, before)
        decreases rest
      {
        var player :| player in rest;
        var sum := PlayerTotal(shared.times[player], after, before);
        total := total[player := sum];
        rest := rest - {player};
      }
    }

    /** The inner loop of `printTotalTimes`: one player's time inside `[after, before]`. */
    static method PlayerTotal(ptimes: seq<ScanEntry>, after: int, before: Option<int>) returns (sum: LP.Total)
      ensures sum == HistoryTotal(ptimes, after, before)
    {
      sum := LP.Finite(0);
      for j := 0 to |ptimes|
        invariant sum == HistoryTotal(ptimes[..j], after, before)
      {
        assert ptimes[..j + 1][..j] == ptimes[..j];
        var jtime := ptimes[j].join;
        var add: LP.Total;
        match ptimes[j].leave {
          case Some(ltime) =>
            add := if ltime < after then LP.Finite(0) else LP.Finite(LP.Clip(Max(jtime, after), LP.CapAt(ltime, before)));
          case None =>
            add := if before.None? then LP.Infinite else LP.Finite(LP.Clip(Max(jtime, after), before.value));
        }
        sum := LP.AddTotal(sum, add);
      }
      assert ptimes[..|ptimes|] == ptimes;
    }

    /**
     * `processFile`: replay the lines into the shared dictionary. A raise keeps what the earlier
     * lines changed; only a file read to its end is added to `processedFiles`, by its base name.
     */
    method ProcessFile(filename: string, lines: seq<ScanLine>) returns (err: Option<ScanError>)
      modifies shared
      ensures lines == [] ==> err == Some(EmptyLogFile) && shared.times == old(shared.times)
      ensures lines != [] ==>
        var o := ScanReplay(old(shared.times), lines, lines[0].StartLine?);
        shared.times == o.times && err == o.error
      ensures err.None? ==> shared.processedFiles == old(shared.processedFiles) + [Basename(filename)]
      ensures err.Some? ==> shared.processedFiles == old(shared.processedFiles)
    {
      if |lines| == 0 {
        return Some(EmptyLogFile);
      }
      err := ReplayLines(lines);
      if err.None? {
        shared.processedFiles := shared.processedFiles + [Basename(filename)];
      }
    }

    /** The loop of `processFile` over a non-empty file, stopping at the first raise. */
    method ReplayLines(lines: seq<ScanLine>) returns (err: Option<ScanError>)
      requires lines != []
      modifies shared
      ensures Outcome(shared.times, err) == ScanReplay(old(shared.times), lines, lines[0].StartLine?)
      ensures shared.processedFiles == old(shared.processedFiles)
    {
      var freshRestart := lines[0].StartLine?;
      var i := 0;
      while i < |lines|
        invariant 0 <= i <= |lines|
        invariant shared.processedFiles == old(shared.processedFiles)
        invariant ScanReplay(old(shared.times), lines[..i], freshRestart) == Outcome(shared.times, None)
      {
        assert lines[..i + 1][..i] == lines[..i];
        err := ProcessLine(lines[i], freshRestart);
        if err.Some? {
          ScanReplayErrSticky(old(shared.times), lines, i + 1, freshRestart);
          return;
        }
        i := i + 1;
      }
      assert lines[..|lines|] == lines;
      return None;
    }

    /** The body of `processFile`'s loop for one line. */
    method ProcessLine(line: ScanLine, freshRestart: bool) returns (err: Option<ScanError>)
      modifies shared
      ensures Outcome(shared.times, err) == ApplyScanLine(old(shared.times), line, freshRestart)
      ensures shared.processedFiles == old(shared.processedFiles)
    {
      if !line.GameLine? {
        return None;
      }
      if line.time.None? {
        return Some(BadTimestamp);
      }
      var atime := line.time.value;
      var player := line.player;
      if player !in shared.times {
        shared.times := shared.times[player := []];
      }
      var entries := shared.times[player];
      var n := |entries|;
      match line.action {
        case Joined =>
          if n > 0 && entries[n - 1].leave.None? {
            return Some(DoubleJoin);
          }
          shared.times := shared.times[player := entries + [ScanEntry(atime, None)]];
        case Left =>
          if n > 0 && entries[n - 1].leave.None? {
            shared.times := shared.times[player := entries[..n - 1] + [ScanEntry(entries[n - 1].join, Some(atime))]];
          } else if freshRestart {
            return Some(LeftAfterFreshRestart);
          }
        case OtherAction(_) =>
          return Some(InvalidAction);
      }
      return None;
    }
  }
}
