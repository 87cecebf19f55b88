/**
 * The slot aggregation shared by `LogProcessor.get_slots` (LogProcessor.py) and
 * `LogProcessor.getSlots` (scan.py). Both spread each session `[join, leave]` over the slot
 * numbers `join // size .. leave // size`; slot number `n` receives
 * `min(leave, n * size + size) - max(join, n * size)` seconds under the player's key in the
 * dictionary at index `n - startSlot`, and an index outside the list raises. The two programs
 * differ only in how an entry yields its session, so here an entry is an `Option<Span>`: `None`
 * is an entry whose leave field is a string sentinel, on which `// size` raises a TypeError.
 */
module SlotMath {
  import opened Wrappers

  /** Python's `a // b`: division rounding towards minus infinity. */
  function FloorDiv(a: int, b: int): (q: int)
    requires b != 0
    ensures b > 0 ==> q * b <= a < q * b + b
  {
    if b > 0 then a / b else (-a) / (-b)
  }

  function Min(a: int, b: int): int { if a <= b then a else b }

  function Max(a: int, b: int): int { if a >= b then a else b }

  /** Seconds of `[join, leave]` that fall into slot number `slotNum` of width `size`. */
  function Overlap(join: int, leave: int, slotNum: int, size: int): int
  {
    Min(leave, slotNum * size + size) - Max(join, slotNum * size)
  }

  /** The slots a session is spread over: `range(join // size, leave // size + 1)`. */
  predicate Covers(join: int, leave: int, slotNum: int, size: int)
    requires size != 0
  {
    FloorDiv(join, size) <= slotNum <= FloorDiv(leave, size)
  }

  /** The sum of `Overlap` over the slot numbers `lo .. hi - 1`. */
  function OverlapSum(join: int, leave: int, lo: int, hi: int, size: int): int
    decreases hi - lo
  {
    if hi <= lo then 0 else OverlapSum(join, leave, lo, hi - 1, size) + Overlap(join, leave, hi - 1, size)
  }

  lemma SlotStartMono(k: int, m: int, size: int)
    requires k <= m && size > 0
    ensures k * size <= m * size
  {
    assert m * size - k * size == (m - k) * size;
  }

  /** `// size` is monotone for a positive width. */
  lemma FloorDivMono(a: int, b: int, size: int)
    requires size > 0 && a <= b
    ensures FloorDiv(a, size) <= FloorDiv(b, size)
  {
    var qa, qb := FloorDiv(a, size), FloorDiv(b, size);
    if qa > qb {
      SlotStartMono(qb + 1, qa, size);
    }
  }

  /** Each slot a session covers receives between 0 and `size` seconds. */
  lemma OverlapBounds(join: int, leave: int, slotNum: int, size: int)
    requires size > 0 && join <= leave
    requires Covers(join, leave, slotNum, size)
    ensures 0 <= Overlap(join, leave, slotNum, size) <= size
  {
    var lo, hi := FloorDiv(join, size), FloorDiv(leave, size);
    SlotStartMono(lo, slotNum, size);
    SlotStartMono(slotNum, hi, size);
    if slotNum > lo { SlotStartMono(lo + 1, slotNum, size); }
    if slotNum < hi { SlotStartMono(slotNum + 1, hi, size); }
  }

  /** The running sum up to slot `k` is the part of the session before that slot's end. */
  lemma {:induction false} OverlapPrefix(join: int, leave: int, k: int, size: int)
    requires size > 0 && join <= leave
    requires FloorDiv(join, size) <= k <= FloorDiv(leave, size)
    ensures OverlapSum(join, leave, FloorDiv(join, size), k + 1, size) == Min(leave, k * size + size) - join
    decreases k - FloorDiv(join, size)
  {
    var lo, hi := FloorDiv(join, size), FloorDiv(leave, size);
    SlotStartMono(k, hi, size);
    if k == lo {
      assert OverlapSum(join, leave, lo, k + 1, size) == Overlap(join, leave, lo, size);
    } else {
      OverlapPrefix(join, leave, k - 1, size);
      SlotStartMono(lo + 1, k, size);
      assert (lo + 1) * size == lo * size + size;
      assert (k - 1) * size + size == k * size;
      assert OverlapSum(join, leave, lo, k + 1, size) == OverlapSum(join, leave, lo, k, size) + Overlap(join, leave, k, size);
    }
  }

  /**
   * Conservation: the contributions of one session over all the slots it covers add up to
   * exactly its length, for every positive slot width.
   */
  lemma SessionConservation(join: int, leave: int, size: int)
    requires size > 0 && join <= leave
    ensures OverlapSum(join, leave, FloorDiv(join, size), FloorDiv(leave, size) + 1, size) == leave - join
  {
    var hi := FloorDiv(leave, size);
    OverlapPrefix(join, leave, hi, size);
  }

  /** The slot-width example: `[1800, 5400]` in hourly slots gives 1800 s to slots 0 and 1. */
  lemma HourlyExample()
    ensures FloorDiv(1800, 3600) == 0 && FloorDiv(5400, 3600) == 1
    ensures Overlap(1800, 5400, 0, 3600) == 1800 && Overlap(1800, 5400, 1, 3600) == 1800
  {
  }

  // ---------------------------------------------------------------------------------------
  // Spreading sessions over a slot list

  /** A session with numeric join and leave times. */
  datatype Span = Span(join: int, leave: int)

  /** Each player's entries, `None` where the leave field is not a number. */
  type Table = map<string, seq<Option<Span>>>

  datatype SlotFault =
    | LeaveNotANumber     // TypeError: a string sentinel `// size`
    | NegativeSlotIndex   // ValueError('Negative slot index')
    | SlotIndexTooLarge   // ValueError('Slot index too large')

  /** The entry is spread over slot number `k`. */
  predicate TouchedBy(s: Option<Span>, k: int, size: int)
    requires size != 0
  {
    s.Some? && Covers(s.value.join, s.value.leave, k, size)
  }

  /** Seconds the entry adds to slot number `k`. */
  function Contribution(s: Option<Span>, k: int, size: int): int
    requires size != 0
  {
    if TouchedBy(s, k, size) then Overlap(s.value.join, s.value.leave, k, size) else 0
  }

  /** Some entry of the history is spread over slot `k`, so the player has a key in that slot. */
  predicate Touched(spans: seq<Option<Span>>, k: int, size: int)
    requires size != 0
  {
    spans != [] && (Touched(spans[..|spans| - 1], k, size) || TouchedBy(spans[|spans| - 1], k, size))
  }

  /** The seconds a history adds to slot `k`. */
  function Share(spans: seq<Option<Span>>, k: int, size: int): int
    requires size != 0
  {
    if spans == [] then 0 else Share(spans[..|spans| - 1], k, size) + Contribution(spans[|spans| - 1], k, size)
  }

  /** The dictionary of slot number `k` once the players of `done` have been visited. */
  function SlotRow(table: Table, done: set<string>, k: int, size: int): map<string, int>
    requires size != 0
  {
    map q | q in done && q in table && Touched(table[q], k, size) :: Share(table[q], k, size)
  }

  /** The slot list once every player is visited: index `i` holds slot number `startSlot + i`. */
  function SlotsOf(table: Table, startSlot: int, numSlots: nat, size: int): seq<map<string, int>>
    requires size != 0
  {
    seq(numSlots, i => SlotRow(table, table.Keys, startSlot + i, size))
  }

  /** The raise met while spreading `[join, leave]` over a list of `numSlots` slots from `startSlot`, if any. */
  function RangeFault(join: int, leave: int, startSlot: int, numSlots: int, size: int): Option<SlotFault>
    requires size != 0
  {
    var first := FloorDiv(join, size);
    var last := FloorDiv(leave, size);
    if last < first then None
    else if first < startSlot then Some(NegativeSlotIndex)
    else if startSlot + numSlots <= last then Some(SlotIndexTooLarge)
    else None
  }

  /** The raise met on one entry, if any. */
  function EntryFault(s: Option<Span>, startSlot: int, numSlots: int, size: int): Option<SlotFault>
    requires size != 0
  {
    if s.None? then Some(LeaveNotANumber) else RangeFault(s.value.join, s.value.leave, startSlot, numSlots, size)
  }

  /** No entry of any player raises. */
  predicate AllFit(table: Table, startSlot: int, numSlots: int, size: int)
    requires size != 0
  {
    forall p, j | p in table && 0 <= j < |table[p]| :: EntryFault(table[p][j], startSlot, numSlots, size).None?
  }

  /** `slots[i][player]`, a missing key read as the 0 stored before adding. */
  function Get(m: map<string, int>, p: string): int
  {
    if p in m then m[p] else 0
  }

  /** `slots[i][player] += amount` once the key exists. */
  function Bumped(m: map<string, int>, p: string, amount: int): map<string, int>
  {
    m[p := Get(m, p) + amount]
  }

  /** `m` with `p` set to `v` when `present`, else `m` itself. */
  function With(m: map<string, int>, p: string, present: bool, v: int): map<string, int>
  {
    if present then m[p := v] else m
  }

  /** A history that touches slot `k` nowhere adds nothing to it. */
  lemma {:induction false} UntouchedShareZero(spans: seq<Option<Span>>, k: int, size: int)
    requires size != 0 && !Touched(spans, k, size)
    ensures Share(spans, k, size) == 0
    decreases |spans|
  {
    if spans != [] {
      UntouchedShareZero(spans[..|spans| - 1], k, size);
    }
  }

  /** Visiting one more player adds that player's key to the slot's dictionary. */
  lemma SlotRowAdd(table: Table, done: set<string>, p: string, k: int, size: int)
    requires size != 0 && p in table && p !in done
    ensures p !in SlotRow(table, done, k, size)
    ensures SlotRow(table, done + {p}, k, size) ==
      With(SlotRow(table, done, k, size), p, Touched(table[p], k, size), Share(table[p], k, size))
  {
  }

  /** Spreading one more player's history turns every slot's row into the row with that player visited. */
  lemma RowsAdvance(table: Table, done: set<string>, p: string, startSlot: int, size: int, before: seq<map<string, int>>, after: seq<map<string, int>>)
    requires size != 0 && p in table && p !in done && |after| == |before|
    requires forall k | 0 <= k < |before| :: before[k] == SlotRow(table, done, startSlot + k, size)
    requires forall k | 0 <= k < |before| ::
      after[k] == With(before[k], p, Touched(table[p], startSlot + k, size), Get(before[k], p) + Share(table[p], startSlot + k, size))
    ensures forall k | 0 <= k < |before| :: after[k] == SlotRow(table, done + {p}, startSlot + k, size)
  {
    forall k | 0 <= k < |before|
      ensures after[k] == SlotRow(table, done + {p}, startSlot + k, size)
    {
      SlotRowAdd(table, done, p, startSlot + k, size);
    }
  }

  /** One step of the per-player loop, slot by slot. */
  lemma ShareStep(spans: seq<Option<Span>>, j: int, k: int, size: int)
    requires size != 0 && 0 <= j < |spans|
    ensures Touched(spans[..j + 1], k, size) == (Touched(spans[..j], k, size) || TouchedBy(spans[j], k, size))
    ensures Share(spans[..j + 1], k, size) == Share(spans[..j], k, size) + Contribution(spans[j], k, size)
  {
    assert spans[..j + 1][..j] == spans[..j];
  }

  /**
   * The innermost loop: add one session `[join, leave]` to the slots it covers, raising on the
   * first slot number outside the list.
   */
  method SpreadSpan(slots: seq<map<string, int>>, player: string, join: int, leave: int, startSlot: int, size: int)
    returns (r: Result<seq<map<string, int>>, SlotFault>)
    requires size != 0
    ensures r.Err? <==> RangeFault(join, leave, startSlot, |slots|, size).Some?
    ensures r.Err? ==> r.error == RangeFault(join, leave, startSlot, |slots|, size).value
    ensures r.Ok? ==> |r.value| == |slots|
    ensures r.Ok? ==> forall k | 0 <= k < |slots| ::
      r.value[k] == (if Covers(join, leave, startSlot + k, size)
                     then Bumped(slots[k], player, Overlap(join, leave, startSlot + k, size))
                     else slots[k])
  {
    var first := FloorDiv(join, size);
    var last := FloorDiv(leave, size);
    var s := slots;
    var slotNum := first;
    while slotNum <= last
      invariant first <= slotNum <= Max(first, last + 1)
      invariant slotNum > first ==> startSlot <= first && slotNum - 1 < startSlot + |slots|
      invariant |s| == |slots|
      invariant forall k | 0 <= k < |slots| ::
        s[k] == (if first <= startSlot + k < slotNum then Bumped(slots[k], player, Overlap(join, leave, startSlot + k, size)) else slots[k])
    {
      var slotIndex := slotNum - startSlot;
      if slotIndex < 0 {
        return Err(NegativeSlotIndex);
      }
      if slotIndex >= |s| {
        return Err(SlotIndexTooLarge);
      }
      var slotTime := slotNum * size;
      var playStart := Max(join, slotTime);
      var playEnd := Min(leave, slotTime + size);
      assert playEnd - playStart == Overlap(join, leave, slotNum, size);
      s := s[slotIndex := Bumped(s[slotIndex], player, playEnd - playStart)];
      slotNum := slotNum + 1;
    }
    return Ok(s);
  }

  /** Spreading entry `j` over the slots extends the sums over the first `j` entries by that entry. */
  lemma SpanAdvance(slots: seq<map<string, int>>, player: string, spans: seq<Option<Span>>, j: nat, startSlot: int, size: int,
                    s: seq<map<string, int>>, t: seq<map<string, int>>)
    requires size != 0 && j < |spans| && spans[j].Some? && |s| == |slots| && |t| == |slots|
    requires forall k | 0 <= k < |slots| ::
      s[k] == With(slots[k], player, Touched(spans[..j], startSlot + k, size), Get(slots[k], player) + Share(spans[..j], startSlot + k, size))
    requires forall k | 0 <= k < |slots| ::
      t[k] == (if Covers(spans[j].value.join, spans[j].value.leave, startSlot + k, size)
               then Bumped(s[k], player, Overlap(spans[j].value.join, spans[j].value.leave, startSlot + k, size))
               else s[k])
    ensures forall k | 0 <= k < |slots| ::
      t[k] == With(slots[k], player, Touched(spans[..j + 1], startSlot + k, size), Get(slots[k], player) + Share(spans[..j + 1], startSlot + k, size))
  {
    forall k | 0 <= k < |slots|
      ensures t[k] ==
        With(slots[k], player, Touched(spans[..j + 1], startSlot + k, size), Get(slots[k], player) + Share(spans[..j + 1], startSlot + k, size))
    {
      ShareStep(spans, j, startSlot + k, size);
      if !Touched(spans[..j], startSlot + k, size) {
        UntouchedShareZero(spans[..j], startSlot + k, size);
      }
    }
  }

  /** The middle loop: spread every entry of one player's history, in order. */
  method SpreadPlayer(slots: seq<map<string, int>>, player: string, spans: seq<Option<Span>>, startSlot: int, size: int)
    returns (r: Result<seq<map<string, int>>, SlotFault>)
    requires size != 0
    ensures r.Err? <==> exists j | 0 <= j < |spans| :: EntryFault(spans[j], startSlot, |slots|, size).Some?
    ensures r.Err? ==> exists j | 0 <= j < |spans| :: EntryFault(spans[j], startSlot, |slots|, size) == Some(r.error)
    ensures r.Ok? ==> |r.value| == |slots|
    ensures r.Ok? ==> forall k | 0 <= k < |slots| ::
      r.value[k] == With(slots[k], player, Touched(spans, startSlot + k, size), Get(slots[k], player) + Share(spans, startSlot + k, size))
  {
    var s := slots;
    for j := 0 to |spans|
      invariant |s| == |slots|
      invariant forall jj | 0 <= jj < j :: EntryFault(spans[jj], startSlot, |slots|, size).None?
      invariant forall k | 0 <= k < |slots| ::
        s[k] == With(slots[k], player, Touched(spans[..j], startSlot + k, size), Get(slots[k], player) + Share(spans[..j], startSlot + k, size))
    {
      if spans[j].None? {
        return Err(LeaveNotANumber);
      }
      var res := SpreadSpan(s, player, spans[j].value.join, spans[j].value.leave, startSlot, size);
      if res.Err? {
        return Err(res.error);
      }
      SpanAdvance(slots, player, spans, j, startSlot, size, s, res.value);
      s := res.value;
    }
    assert spans[..|spans|] == spans;
    return Ok(s);
  }

  /**
   * The outer loop: `slots = [{} for _ in range(numSlots)]`, then every player's history is
   * spread. Players are visited in an unspecified order (a dictionary's), so when several
   * entries would raise, any of their raises may come out; a successful result does not
   * depend on the order.
   */
  method Spread(table: Table, startSlot: int, numSlots: int, size: int) returns (r: Result<seq<map<string, int>>, SlotFault>)
    requires size != 0
    ensures r.Ok? <==> AllFit(table, startSlot, Max(numSlots, 0), size)
    ensures r.Ok? ==> r.value == SlotsOf(table, startSlot, Max(numSlots, 0), size)
    ensures r.Err? ==> exists p, j | p in table && 0 <= j < |table[p]| ::
      EntryFault(table[p][j], startSlot, Max(numSlots, 0), size) == Some(r.error)
  {
    var slots: seq<map<string, int>> := seq(Max(numSlots, 0), _ => map[]);
    var done: set<string> := {};
    var rest := table.Keys;
    while rest != {}
      invariant done <= table.Keys && rest == table.Keys - done
      invariant |slots| == Max(numSlots, 0)
      invariant forall k | 0 <= k < |slots| :: slots[k] == SlotRow(table, done, startSlot + k, size)
      invariant forall p, j | p in done && 0 <= j < |table[p]| :: EntryFault(table[p][j], startSlot, |slots|, size).None?
      decreases rest
    {
      var player :| player in rest;
      var res := SpreadPlayer(slots, player, table[player], startSlot, size);
      if res.Err? {
        var j :| 0 <= j < |table[player]| && EntryFault(table[player][j], startSlot, |slots|, size) == Some(res.error);
        return Err(res.error);
      }
      RowsAdvance(table, done, player, startSlot, size, slots, res.value);
      slots := res.value;
      done := done + {player};
      rest := rest - {player};
    }
    assert done == table.Keys;
    assert slots == SlotsOf(table, startSlot, Max(numSlots, 0), size);
    return Ok(slots);
  }

  /** When every session lies inside `[lo, hi]`, the list from `lo // size` to `hi // size` holds them all. */
  lemma InWindowFits(table: Table, lo: int, hi: int, size: int)
    requires size > 0
    requires forall p, j | p in table && 0 <= j < |table[p]| ::
      table[p][j].Some? && lo <= table[p][j].value.join && table[p][j].value.leave <= hi
    ensures AllFit(table, FloorDiv(lo, size), Max(FloorDiv(hi, size) - FloorDiv(lo, size) + 1, 0), size)
  {
    forall p, j | p in table && 0 <= j < |table[p]|
      ensures EntryFault(table[p][j], FloorDiv(lo, size), Max(FloorDiv(hi, size) - FloorDiv(lo, size) + 1, 0), size).None?
    {
      var s := table[p][j].value;
      FloorDivMono(lo, s.join, size);
      FloorDivMono(s.leave, hi, size);
    }
  }

  // ---------------------------------------------------------------------------------------
  // Conservation: the slots hold exactly the time played

  /** Every session of the history leaves no earlier than it joins. */
  ghost predicate Forward(spans: seq<Option<Span>>)
  {
    forall j | 0 <= j < |spans| :: spans[j].Some? ==> spans[j].value.join <= spans[j].value.leave
  }

  /** The seconds the sessions of a history last. */
  function PlayTime(spans: seq<Option<Span>>): int
  {
    if spans == [] then 0
    else
      var s := spans[|spans| - 1];
      PlayTime(spans[..|spans| - 1]) + (if s.Some? then s.value.leave - s.value.join else 0)
  }

  /** A player's value summed over a slot list. */
  function Column(slots: seq<map<string, int>>, p: string): int
  {
    if slots == [] then 0 else Column(slots[..|slots| - 1], p) + Get(slots[|slots| - 1], p)
  }

  /** `Share` summed over the slot numbers `lo .. hi - 1`. */
  function ShareSum(spans: seq<Option<Span>>, lo: int, hi: int, size: int): int
    requires size != 0
    decreases hi - lo
  {
    if hi <= lo then 0 else ShareSum(spans, lo, hi - 1, size) + Share(spans, hi - 1, size)
  }

  /** `Contribution` of one entry summed over the slot numbers `lo .. hi - 1`. */
  function ContributionSum(s: Option<Span>, lo: int, hi: int, size: int): int
    requires size != 0
    decreases hi - lo
  {
    if hi <= lo then 0 else ContributionSum(s, lo, hi - 1, size) + Contribution(s, hi - 1, size)
  }

  lemma {:induction false} ColumnOfSlots(table: Table, p: string, startSlot: int, n: nat, size: int)
    requires size != 0 && p in table
    ensures Column(SlotsOf(table, startSlot, n, size), p) == ShareSum(table[p], startSlot, startSlot + n, size)
  {
    if n > 0 {
      var slots := SlotsOf(table, startSlot, n, size);
      assert slots[..n - 1] == SlotsOf(table, startSlot, n - 1, size);
      ColumnOfSlots(table, p, startSlot, n - 1, size);
      var k := startSlot + n - 1;
      if !Touched(table[p], k, size) {
        UntouchedShareZero(table[p], k, size);
      }
      var row := SlotRow(table, table.Keys, k, size);
      assert slots[n - 1] == row;
      assert p in row <==> Touched(table[p], k, size);
      assert Get(row, p) == Share(table[p], k, size);
    }
  }

  lemma {:induction false} ShareSumEmpty(lo: int, hi: int, size: int)
    requires size != 0
    ensures ShareSum([], lo, hi, size) == 0
    decreases hi - lo
  {
    if hi > lo {
      ShareSumEmpty(lo, hi - 1, size);
    }
  }

  /** The slot sums of a history split into those of all but its last entry and those of the last. */
  lemma {:induction false} ShareSumSplit(spans: seq<Option<Span>>, lo: int, hi: int, size: int)
    requires size != 0 && spans != []
    ensures ShareSum(spans, lo, hi, size) == ShareSum(spans[..|spans| - 1], lo, hi, size) + ContributionSum(spans[|spans| - 1], lo, hi, size)
    decreases hi - lo
  {
    if hi > lo {
      ShareSumSplit(spans, lo, hi - 1, size);
    }
  }

  /** The running slot sum of one session, clamped to the slots it covers. */
  lemma {:induction false} ContributionPrefix(s: Span, lo: int, h: int, size: int)
    requires size > 0 && lo <= FloorDiv(s.join, size) <= FloorDiv(s.leave, size) + 1 && lo <= h
    ensures ContributionSum(Some(s), lo, h, size) ==
      OverlapSum(s.join, s.leave, FloorDiv(s.join, size), Min(Max(h, FloorDiv(s.join, size)), FloorDiv(s.leave, size) + 1), size)
    decreases h - lo
  {
    if h > lo {
      ContributionPrefix(s, lo, h - 1, size);
    }
  }

  /** One session that fits the slot list adds exactly its length to the slots. */
  lemma SpanConservation(s: Span, startSlot: int, n: nat, size: int)
    requires size > 0 && s.join <= s.leave && EntryFault(Some(s), startSlot, n, size).None?
    ensures ContributionSum(Some(s), startSlot, startSlot + n, size) == s.leave - s.join
  {
    FloorDivMono(s.join, s.leave, size);
    ContributionPrefix(s, startSlot, startSlot + n, size);
    SessionConservation(s.join, s.leave, size);
  }

  lemma {:induction false} HistoryConservation(spans: seq<Option<Span>>, startSlot: int, n: nat, size: int)
    requires size > 0 && Forward(spans)
    requires forall j | 0 <= j < |spans| :: EntryFault(spans[j], startSlot, n, size).None?
    ensures ShareSum(spans, startSlot, startSlot + n, size) == PlayTime(spans)
  {
    if spans == [] {
      ShareSumEmpty(startSlot, startSlot + n, size);
    } else {
      var m := |spans| - 1;
      HistoryConservation(spans[..m], startSlot, n, size);
      ShareSumSplit(spans, startSlot, startSlot + n, size);
      SpanConservation(spans[m].value, startSlot, n, size);
    }
  }

  /**
   * Conservation of the slot list: when spreading succeeds, a player's values over all slots add
   * up to the time the player's sessions last.
   */
  lemma SlotsConserveTime(table: Table, p: string, startSlot: int, n: nat, size: int)
    requires size > 0 && p in table && Forward(table[p])
    requires AllFit(table, startSlot, n, size)
    ensures Column(SlotsOf(table, startSlot, n, size), p) == PlayTime(table[p])
  {
    ColumnOfSlots(table, p, startSlot, n, size);
    HistoryConservation(table[p], startSlot, n, size);
  }
}
