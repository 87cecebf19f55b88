/**
 * The earlier tracker of the root logalyzer.py: class `LogFile` with its `found_*` actions,
 * the line loop of `convert_log`, `peek_start` and `read_log`, and the name helpers of
 * `AllLogs`. Unlike the tracker of mcserverstats/logalyzer.py, a join overwrites the player's
 * entry instead of counting, a leave without a join raises, and `online` entries are
 * `[uuid, from]`.
 *
 * Two things of the source shape this model. `log_action` returns nothing from its inner
 * decorator, so every decorated method is `None` as a class attribute; the line loop calls
 * the functions it collected and works, but `found_stop`'s `self.found_leave(...)` calls
 * `None`. And a file that does not start fresh stores its predecessor's `online` dict in
 * `self.times`, where the next `append` fails.
 */
module LegacyLogalyzer {
  import opened Wrappers
  import opened Dicts
  import opened LogNames

  /** An `online` value `[uuid, from]`. */
  datatype Entry = Entry(uuid: string, from: int)

  /** A `times` entry `[uuid, from, to, name]`. */
  datatype Session = Session(uuid: string, from: int, to: int, name: string)

  /**
   * What `self.times` holds: the list of sessions, or the predecessor's `online` dict that
   * `read_log` assigns to it when the file does not start fresh.
   */
  datatype Times = List(sessions: seq<Session>) | PrevOnline(online: Dict<Entry>)

  /** What the action regexes make of a line after its timestamp. */
  datatype Event =
    | NoAction
    | Uuid(name: string, uuid: string)
    | Join(name: string)
    | Leave(name: string, reason: string)
    | Stop

  /** A line without a timestamp, or one at `seconds` (the epoch of the file's day and the time). */
  datatype Line = Untimed | Timed(seconds: int, event: Event)

  /** The log: whether its first line is the server boot line (false when empty), and its lines. */
  datatype Text = Text(startsWithBoot: bool, lines: seq<Line>)

  /** The six attributes a `.yaml` file next to the log holds. */
  datatype Saved = Saved(
    started: Option<bool>,
    stopped: bool,
    firstEvent: Option<int>,
    lastEvent: Option<int>,
    online: Dict<Entry>,
    times: Times)

  /**
   * A `.yaml` file: its lines as iterating the file yields them (each still ending in its line
   * break, the last one possibly without), and the attributes they load as.
   */
  datatype Cache = Cache(lines: seq<string>, saved: Saved)

  datatype LegacyError =
    | UnknownUuid(name: string)        // `KeyError` from `self.uuids[name]` in `found_join`
    | LeftWithoutJoin(name: string)    // `ValueError('Player ... left without joining ...')`
    | TimesNotAList                    // `AttributeError`: `times` holds a dict, which has no `append`
    | LeaveNotCallable                 // `TypeError`: `self.found_leave` is `None`
    | FirstLogNoStart                  // `ValueError('First log and no server start')`
    | YamlWithoutStarted               // `ValueError('YAML file does not start with `started: `')`
    | YamlHeaderCut                    // `IndexError` from `line[9]`

  /** The attributes the line loop reads and writes. */
  datatype FileState = FileState(
    uuids: map<string, string>,
    online: Dict<Entry>,
    times: Times,
    stopped: bool,
    firstEvent: Option<int>,
    lastEvent: Option<int>)

  /** A method's effect matches `r`: the state on success, the raised error otherwise. */
  predicate Reached(st: FileState, err: Option<LegacyError>, r: Result<FileState, LegacyError>)
  {
    match r
    case Ok(s) => err.None? && st == s
    case Err(e) => err == Some(e)
  }

  // ---------------------------------------------------------------------------------------
  // The actions

  /** `found_join`: the entry is overwritten with the announced UUID; no UUID raises. */
  function JoinStep(st: FileState, seconds: int, name: string): Result<FileState, LegacyError>
  {
    if name !in st.uuids then Err(UnknownUuid(name))
    else Ok(st.(online := st.online.Put(name, Entry(st.uuids[name], seconds))))
  }

  /** `found_leave`: the player leaves `online` and one session is appended to `times`. */
  function LeaveStep(st: FileState, seconds: int, name: string): Result<FileState, LegacyError>
  {
    if name !in st.online.values then Err(LeftWithoutJoin(name))
    else
      var e := st.online.values[name];
      match st.times
      case PrevOnline(_) => Err(TimesNotAList)
      case List(s) =>
        Ok(st.(online := st.online.Delete(name), times := List(s + [Session(e.uuid, e.from, seconds, name)])))
  }

  /** `found_leave` for each of `names` in turn, stopping at the first error. */
  function CloseAll(st: FileState, seconds: int, names: seq<string>): Result<FileState, LegacyError>
    decreases |names|
  {
    if names == [] then Ok(st)
    else
      match LeaveStep(st, seconds, names[0])
      case Err(e) => Err(e)
      case Ok(s) => CloseAll(s, seconds, names[1..])
  }

  /** `found_stop` as written: `stopped` is set, and the first player calls `None`. */
  function StopAsWritten(st: FileState, seconds: int): Result<FileState, LegacyError>
  {
    if st.online.keys == [] then Ok(st.(stopped := true)) else Err(LeaveNotCallable)
  }

  /** `found_stop` as intended: `stopped` is set and every player online leaves at the stop. */
  function StopStep(st: FileState, seconds: int): Result<FileState, LegacyError>
  {
    CloseAll(st.(stopped := true), seconds, st.online.keys)
  }

  /** The sessions closing `names` at `seconds` produce, in order. */
  function Closed(values: map<string, Entry>, names: seq<string>, seconds: int): seq<Session>
    requires forall i | 0 <= i < |names| :: names[i] in values
    decreases |names|
  {
    if names == [] then []
    else [Session(values[names[0]].uuid, values[names[0]].from, seconds, names[0])] + Closed(values, names[1..], seconds)
  }

  // ---------------------------------------------------------------------------------------
  // The line loop of `convert_log`

  /** `first_event` takes the first timestamp; `last_event` the largest. */
  function Touch(st: FileState, seconds: int): FileState
  {
    st.(firstEvent := if st.firstEvent.None? then Some(seconds) else st.firstEvent,
        lastEvent := if st.lastEvent.None? || st.lastEvent.value < seconds then Some(seconds) else st.lastEvent)
  }

  /**
   * Which `found_stop` the line loop runs: the one the source has, whose `found_leave` is
   * `None`, or the evidently intended one.
   */
  datatype StopVersion = AsWritten | AsIntended

  function Act(v: StopVersion, st: FileState, seconds: int, event: Event): Result<FileState, LegacyError>
  {
    match event
    case NoAction => Ok(st)
    case Uuid(name, uuid) => Ok(st.(uuids := st.uuids[name := uuid]))
    case Join(name) => JoinStep(st, seconds, name)
    case Leave(name, _) => LeaveStep(st, seconds, name)
    case Stop => if v.AsWritten? then StopAsWritten(st, seconds) else StopStep(st, seconds)
  }

  function Step(v: StopVersion, st: FileState, line: Line): Result<FileState, LegacyError>
  {
    match line
    case Untimed => Ok(st)
    case Timed(seconds, event) => Act(v, Touch(st, seconds), seconds, event)
  }

  /** The line loop of `convert_log` over `lines`, stopping at the first error. */
  function Run(v: StopVersion, st: FileState, lines: seq<Line>): Result<FileState, LegacyError>
    decreases |lines|
  {
    if lines == [] then Ok(st)
    else
      match Step(v, st, lines[0])
      case Err(e) => Err(e)
      case Ok(s) => Run(v, s, lines[1..])
  }

  /** The time of the first line with a timestamp. */
  function FirstTimed(lines: seq<Line>): Option<int>
    decreases |lines|
  {
    if lines == [] then None
    else if lines[0].Timed? then Some(lines[0].seconds)
    else FirstTimed(lines[1..])
  }

  /** `first_event` and `last_event` are set together, the first no later than the last. */
  predicate EventsOrdered(st: FileState)
  {
    && (st.firstEvent.Some? <==> st.lastEvent.Some?)
    && (st.firstEvent.Some? ==> st.firstEvent.value <= st.lastEvent.value)
  }

  // ---------------------------------------------------------------------------------------
  // `peek_start` and `read_log`

  const STARTED: string := "started: "

  /**
   * `peek_start` on a `.yaml` file: the first line must begin with `started: `, and the flag
   * is whether the character after it is `y` or `t`.
   */
  function PeekYaml(lines: seq<string>): (r: Result<bool, LegacyError>)
    ensures r.Ok? <==> lines != [] && |lines[0]| > |STARTED| && lines[0][..|STARTED|] == STARTED
    ensures r == Err(YamlHeaderCut) <==> lines != [] && lines[0] == STARTED
    ensures r.Ok? ==> (r.value <==> lines[0][|STARTED|] in "yt")
  {
    if lines == [] then Err(YamlWithoutStarted)
    else
      var line := lines[0];
      if |line| >= |STARTED| && line[..|STARTED|] == STARTED then
        if |line| == |STARTED| then Err(YamlHeaderCut) else Ok(line[|STARTED|] in "yt")
      else Err(YamlWithoutStarted)
  }

  /** `peek_start`: the remembered flag, else the `.yaml` header, else whether the log boots. */
  function Peek(started: Option<bool>, cache: Option<Cache>, text: Text): Result<bool, LegacyError>
  {
    if started.Some? then Ok(started.value)
    else if cache.Some? then PeekYaml(cache.value.lines)
    else Ok(text.startsWithBoot)
  }

  class LogFile {
    const text: Text
    /** The `.yaml` file next to the log, if one exists. */
    const cache: Option<Cache>

    var uuids: map<string, string>
    var beenRead: bool
    var started: Option<bool>
    /** `None` in the source until a stop is seen; only its truth value is ever read. */
    var stopped: bool
    var firstEvent: Option<int>
    var lastEvent: Option<int>
    var online: Dict<Entry>
    var times: Times

    /** `LogFile(parent, log_name)` */
    constructor (text: Text, cache: Option<Cache>)
      ensures this.text == text && this.cache == cache
      ensures State() == FileState(map[], Empty(), List([]), false, None, None)
      ensures !beenRead && started.None?
    {
      this.text := text;
      this.cache := cache;
      uuids := map[];
      beenRead := false;
      started := None;
      stopped := false;
      firstEvent := None;
      lastEvent := None;
      online := Empty();
      times := List([]);
    }

    function State(): FileState
      reads this
    {
      FileState(uuids, online, times, stopped, firstEvent, lastEvent)
    }

    method FoundUuid(name: string, uuid: string)
      modifies this
      ensures State() == old(State()).(uuids := old(uuids)[name := uuid])
      ensures started == old(started) && beenRead == old(beenRead)
    {
      uuids := uuids[name := uuid];
    }

    method FoundJoin(seconds: int, name: string) returns (err: Option<LegacyError>)
      modifies this
      ensures Reached(State(), err, JoinStep(old(State()), seconds, name))
      ensures err.Some? ==> State() == old(State())
      ensures started == old(started) && beenRead == old(beenRead)
    {
      if name !in uuids {
        return Some(UnknownUuid(name));
      }
      online := online.Put(name, Entry(uuids[name], seconds));
      err := None;
    }

    method FoundLeave(seconds: int, name: string) returns (err: Option<LegacyError>)
      modifies this
      ensures Reached(State(), err, LeaveStep(old(State()), seconds, name))
      ensures err == Some(TimesNotAList) ==> online == old(online).Delete(name) && times == old(times)
      ensures started == old(started) && beenRead == old(beenRead)
    {
      if name !in online.values {
        return Some(LeftWithoutJoin(name));
      }
      var e := online.values[name];
      online := online.Delete(name);
      if times.PrevOnline? {
        return Some(TimesNotAList);
      }
      times := List(times.sessions + [Session(e.uuid, e.from, seconds, name)]);
      err := None;
    }

    /** `found_stop` as written. */
    method FoundStopAsWritten(seconds: int) returns (err: Option<LegacyError>)
      modifies this
      ensures Reached(State(), err, StopAsWritten(old(State()), seconds))
      ensures started == old(started) && beenRead == old(beenRead)
    {
      stopped := true;
      if online.keys != [] {
        return Some(LeaveNotCallable);
      }
      err := None;
    }

    /** `found_stop` as intended: each player online, taken from a copy of the keys, leaves. */
    method FoundStop(seconds: int) returns (err: Option<LegacyError>)
      modifies this
      ensures Reached(State(), err, StopStep(old(State()), seconds))
      ensures started == old(started) && beenRead == old(beenRead)
    {
      stopped := true;
      var names := online.keys;
      assert names[0..] == names;
      var i := 0;
      while i < |names|
        invariant 0 <= i <= |names|
        invariant StopStep(old(State()), seconds) == CloseAll(State(), seconds, names[i..])
        invariant started == old(started) && beenRead == old(beenRead)
      {
        assert names[i..][1..] == names[i + 1..];
        err := FoundLeave(seconds, names[i]);
        if err.Some? {
          return;
        }
        i := i + 1;
      }
      err := None;
    }

    method ConvertLine(line: Line) returns (err: Option<LegacyError>)
      modifies this
      ensures Reached(State(), err, Step(AsWritten, old(State()), line))
      ensures started == old(started) && beenRead == old(beenRead)
    {
      err := None;
      if line.Timed? {
        var seconds := line.seconds;
        if firstEvent.None? {
          firstEvent := Some(seconds);
        }
        if lastEvent.None? || lastEvent.value < seconds {
          lastEvent := Some(seconds);
        }
        match line.event
        case NoAction =>
        case Uuid(name, uuid) => FoundUuid(name, uuid);
        case Join(name) => err := FoundJoin(seconds, name);
        case Leave(name, _) => err := FoundLeave(seconds, name);
        case Stop => err := FoundStopAsWritten(seconds);
      }
    }

    /** `convert_log`: every line of the log in order, with the stop as written. */
    method ConvertLog() returns (err: Option<LegacyError>)
      modifies this
      ensures Reached(State(), err, Run(AsWritten, old(State()), text.lines))
      ensures started == old(started) && beenRead == old(beenRead)
    {
      var lines := text.lines;
      assert lines[0..] == lines;
      var i := 0;
      while i < |lines|
        invariant 0 <= i <= |lines|
        invariant Run(AsWritten, old(State()), lines) == Run(AsWritten, State(), lines[i..])
        invariant started == old(started) && beenRead == old(beenRead)
      {
        assert lines[i..][1..] == lines[i + 1..];
        err := ConvertLine(lines[i]);
        if err.Some? {
          return;
        }
        i := i + 1;
      }
      err := None;
    }

    method PeekStart() returns (r: Result<bool, LegacyError>)
      modifies this
      ensures r == Peek(old(started), cache, text)
      ensures started == if r.Ok? then Some(r.value) else old(started)
      ensures State() == old(State()) && beenRead == old(beenRead)
    {
      if started.Some? {
        return Ok(started.value);
      }
      if cache.Some? {
        r := PeekYaml(cache.value.lines);
        if r.Err? {
          return;
        }
      } else {
        r := Ok(text.startsWithBoot);
      }
      started := Some(r.value);
    }

    /**
     * `read_log(prev_logs)`: nothing once read; a file that does not start fresh reads its
     * predecessor first and takes that file's `online` dict as its `times`; then the
     * attributes are loaded from the `.yaml` file if there is one, and converted otherwise.
     */
    method ReadLog(prevLogs: seq<LogFile>) returns (err: Option<LegacyError>)
      requires this !in prevLogs
      requires forall i | 0 <= i < |prevLogs| :: prevLogs[i] !in prevLogs[..i]
      modifies this, prevLogs
      decreases |prevLogs|
      ensures old(beenRead) ==> err.None? && unchanged(this)
      ensures err.Some? ==> !beenRead
      ensures !old(beenRead) ==>
        var p := Peek(old(started), cache, text);
        && (p.Err? ==> err == Some(p.error))
        && (p == Ok(false) && prevLogs == [] ==> err == Some(FirstLogNoStart))
        && (err.None? ==> p.Ok? && beenRead && (cache.None? ==> started == Some(p.value)))
      ensures !old(beenRead) && cache.None? && Peek(old(started), cache, text) == Ok(true) ==>
        Reached(State(), err, Run(AsWritten, old(State()), text.lines))
      ensures !old(beenRead) && cache.None? && Peek(old(started), cache, text) == Ok(false) && prevLogs != [] ==>
        var prev := prevLogs[|prevLogs| - 1];
        && (!prev.beenRead ==> err.Some?)
        && (prev.beenRead ==>
              Reached(State(), err, Run(AsWritten, old(State()).(times := PrevOnline(prev.online)), text.lines)))
      ensures !old(beenRead) && err.None? && cache.None? && started != Some(true) ==>
        prevLogs != [] &&
        Ok(State()) == Run(AsWritten, old(State()).(times := PrevOnline(prevLogs[|prevLogs| - 1].online)), text.lines)
      ensures !old(beenRead) && err.None? && cache.Some? ==>
        var s := cache.value.saved;
        && started == s.started && stopped == s.stopped && firstEvent == s.firstEvent
        && lastEvent == s.lastEvent && online == s.online && times == s.times
        && uuids == old(uuids)
    {
      if beenRead {
        return None;
      }
      var s := PeekStart();
      if s.Err? {
        return Some(s.error);
      }
      if !s.value {
        if |prevLogs| == 0 {
          return Some(FirstLogNoStart);
        }
        var prev := prevLogs[|prevLogs| - 1];
        err := prev.ReadLog(prevLogs[..|prevLogs| - 1]);
        if err.Some? {
          return;
        }
        times := PrevOnline(prev.online);
      }
      if cache.Some? {
        var saved := cache.value.saved;
        started := saved.started;
        stopped := saved.stopped;
        firstEvent := saved.firstEvent;
        lastEvent := saved.lastEvent;
        online := saved.online;
        times := saved.times;
      } else {
        err := ConvertLog();
        if err.Some? {
          return;
        }
      }
      beenRead := true;
      err := None;
    }
  }

  // ---------------------------------------------------------------------------------------
  // What the actions promise

  /** A join needs an announced UUID and then overwrites the entry; nothing else changes. */
  lemma JoinOverwrites(st: FileState, seconds: int, name: string)
    ensures var r := JoinStep(st, seconds, name);
      && (r.Ok? <==> name in st.uuids)
      && (r.Ok? ==> r.value.online.values == st.online.values[name := Entry(st.uuids[name], seconds)]
                    && r.value.times == st.times && r.value.uuids == st.uuids)
      && (r.Ok? && st.online.Valid() ==> r.value.online.Valid())
  {
  }

  /**
   * A leave succeeds exactly when the player is online and `times` is a list; it then removes
   * the player and appends exactly one session from the join to the leave.
   */
  lemma LeaveAppendsOne(st: FileState, seconds: int, name: string)
    ensures var r := LeaveStep(st, seconds, name);
      && (r == Err(LeftWithoutJoin(name)) <==> name !in st.online.values)
      && (r.Ok? <==> name in st.online.values && st.times.List?)
      && (r.Ok? ==>
            && r.value.online.values == st.online.values - {name}
            && r.value.times.sessions ==
                 st.times.sessions + [Session(st.online.values[name].uuid, st.online.values[name].from, seconds, name)]
            && r.value.uuids == st.uuids)
  {
  }

  /**
   * Joins are not counted: after two joins one leave takes the player offline, and the one
   * session recorded starts at the second join.
   */
  lemma JoinTwiceLeaveOnce(st: FileState, t1: int, t2: int, t3: int, name: string)
    requires name in st.uuids && st.times.List?
    ensures JoinStep(st, t1, name).Ok?
    ensures JoinStep(JoinStep(st, t1, name).value, t2, name).Ok?
    ensures var r := LeaveStep(JoinStep(JoinStep(st, t1, name).value, t2, name).value, t3, name);
      && r.Ok?
      && name !in r.value.online.values
      && r.value.times.sessions == st.times.sessions + [Session(st.uuids[name], t2, t3, name)]
  {
    var s1 := JoinStep(st, t1, name).value;
    var s2 := JoinStep(s1, t2, name).value;
    assert s2.online.values[name] == Entry(st.uuids[name], t2);
  }

  /** Leaving a player who is not listed leaves the other sessions' sources alone. */
  lemma ClosedWithout(values: map<string, Entry>, names: seq<string>, k: string, seconds: int)
    requires forall i | 0 <= i < |names| :: names[i] in values && names[i] != k
    ensures forall i | 0 <= i < |names| :: names[i] in values - {k}
    ensures Closed(values - {k}, names, seconds) == Closed(values, names, seconds)
    decreases |names|
  {
    if names != [] {
      ClosedWithout(values, names[1..], k, seconds);
    }
  }

  /**
   * Closing every listed player empties `online` and appends one session per player, in the
   * order the players joined.
   */
  lemma {:induction false} CloseAllEmpties(st: FileState, seconds: int)
    requires st.online.Valid() && st.times.List?
    ensures forall i | 0 <= i < |st.online.keys| :: st.online.keys[i] in st.online.values
    ensures CloseAll(st, seconds, st.online.keys) ==
      Ok(st.(online := Dict([], map[]),
             times := List(st.times.sessions + Closed(st.online.values, st.online.keys, seconds))))
    decreases |st.online.keys|
  {
    var keys, values := st.online.keys, st.online.values;
    assert forall i | 0 <= i < |keys| :: keys[i] in values;
    if keys == [] {
      assert values == map[];
      assert st.online == Dict([], map[]);
      assert st.times == List(st.times.sessions + []);
    } else {
      var k := keys[0];
      var e := values[k];
      var s := LeaveFirst(st, seconds);
      assert CloseAll(st, seconds, keys) == CloseAll(s, seconds, keys[1..]);
      CloseAllEmpties(s, seconds);
      ClosedWithout(values, keys[1..], k, seconds);
      var rest := Closed(values, keys[1..], seconds);
      var a, x := st.times.sessions, Session(e.uuid, e.from, seconds, k);
      assert Closed(values, keys, seconds) == [x] + rest;
      AppendOne(a, x, rest);
    }
  }

  /** Closing the first listed player: it leaves `online`, which stays valid, and one session is appended. */
  lemma LeaveFirst(st: FileState, seconds: int) returns (s: FileState)
    requires st.online.Valid() && st.times.List? && st.online.keys != []
    ensures var k := st.online.keys[0];
      && k in st.online.values
      && var e := st.online.values[k];
      && s == st.(online := Dict(st.online.keys[1..], st.online.values - {k}),
                  times := List(st.times.sessions + [Session(e.uuid, e.from, seconds, k)]))
      && LeaveStep(st, seconds, k) == Ok(s)
      && s.online.Valid()
  {
    var keys, values := st.online.keys, st.online.values;
    var k := keys[0];
    assert k in keys;
    var e := values[k];
    assert Distinct(keys[1..]) && k !in keys[1..];
    RemoveAbsent(keys[1..], k);
    assert st.online.Delete(k) == Dict(keys[1..], values - {k});
    s := st.(online := Dict(keys[1..], values - {k}), times := List(st.times.sessions + [Session(e.uuid, e.from, seconds, k)]));
  }

  /**
   * `found_stop` as intended sets `stopped`, empties `online` and closes each player at the
   * stop time, once per player; it fails only when `times` is not a list and someone is online.
   */
  lemma StopClosesAll(st: FileState, seconds: int)
    requires st.online.Valid()
    ensures forall i | 0 <= i < |st.online.keys| :: st.online.keys[i] in st.online.values
    ensures st.times.List? ==>
      StopStep(st, seconds) ==
        Ok(st.(stopped := true, online := Dict([], map[]),
               times := List(st.times.sessions + Closed(st.online.values, st.online.keys, seconds))))
    ensures st.times.List? ==> |Closed(st.online.values, st.online.keys, seconds)| == |st.online.keys|
    ensures st.times.PrevOnline? && st.online.keys != [] ==> StopStep(st, seconds) == Err(TimesNotAList)
  {
    var keys := st.online.keys;
    assert forall i | 0 <= i < |keys| :: keys[i] in st.online.values;
    if st.times.List? {
      CloseAllEmpties(st.(stopped := true), seconds);
      ClosedLength(st.online.values, keys, seconds);
    }
  }

  lemma AppendOne(a: seq<Session>, x: Session, rest: seq<Session>)
    ensures (a + [x]) + rest == a + ([x] + rest)
  {
  }

  lemma {:induction false} ClosedLength(values: map<string, Entry>, names: seq<string>, seconds: int)
    requires forall i | 0 <= i < |names| :: names[i] in values
    ensures |Closed(values, names, seconds)| == |names|
    decreases |names|
  {
    if names != [] {
      ClosedLength(values, names[1..], seconds);
    }
  }

  /**
   * As written, a stop with anybody online raises where the intended stop closes everybody:
   * the decorated `found_leave` is `None`.
   */
  lemma StopAsWrittenFails(st: FileState, seconds: int)
    requires st.online.Valid() && st.online.values != map[] && st.times.List?
    ensures StopAsWritten(st, seconds) == Err(LeaveNotCallable)
    ensures StopStep(st, seconds).Ok? && StopStep(st, seconds).value.online.values == map[]
  {
    var k :| k in st.online.values;
    assert k in st.online.keys;
    StopClosesAll(st, seconds);
  }

  /**
   * The line loop as written and as intended part only at a stop with someone online: where
   * the loop as written succeeds, or raises anything but the `TypeError` of calling `None`,
   * the intended loop does exactly the same.
   */
  lemma {:induction false} WrittenAgreesUnlessStopFails(st: FileState, lines: seq<Line>)
    ensures var w := Run(AsWritten, st, lines);
      (w.Ok? || w.error != LeaveNotCallable) ==> Run(AsIntended, st, lines) == w
    decreases |lines|
  {
    if lines != [] && lines[0].Timed? {
      var t := Touch(st, lines[0].seconds);
      if lines[0].event.Stop? && t.online.keys == [] {
        assert StopStep(t, lines[0].seconds) == Ok(t.(stopped := true));
      }
    }
    if lines != [] && Step(AsWritten, st, lines[0]).Ok? {
      WrittenAgreesUnlessStopFails(Step(AsWritten, st, lines[0]).value, lines[1..]);
    }
  }

  /**
   * A log where a player announced and joined is still online at the stop: as written its
   * conversion raises `TypeError`; as intended it records the one session up to the stop.
   */
  lemma ConvertWithStopAsWrittenRaises()
    ensures var st := FileState(map[], Empty(), List([]), false, None, None);
      var lines := [Timed(0, Uuid("a", "u")), Timed(1, Join("a")), Timed(2, Stop)];
      && Run(AsWritten, st, lines) == Err(LeaveNotCallable)
      && Run(AsIntended, st, lines).Ok?
      && Run(AsIntended, st, lines).value.online.values == map[]
      && Run(AsIntended, st, lines).value.times == List([Session("u", 1, 2, "a")])
  {
    var st := FileState(map[], Empty(), List([]), false, None, None);
    var s1 := Touch(st, 0).(uuids := map["a" := "u"]);
    var s2 := Touch(s1, 1).(online := Dict(["a"], map["a" := Entry("u", 1)]));
    assert Step(AsIntended, st, Timed(0, Uuid("a", "u"))) == Ok(s1);
    assert Touch(s1, 1).online.Put("a", Entry("u", 1)) == s2.online;
    assert Step(AsIntended, s1, Timed(1, Join("a"))) == Ok(s2);
    var s3 := Touch(s2, 2).(stopped := true);
    assert s3.online.Delete("a") == Dict([], map[]);
    assert s3.online.values["a"] == Entry("u", 1) && s3.times == List([]);
    assert [] + [Session("u", 1, 2, "a")] == [Session("u", 1, 2, "a")];
    assert LeaveStep(s3, 2, "a") == Ok(s3.(online := Dict([], map[]), times := List([Session("u", 1, 2, "a")])));
  }

  /** After `read_log` gave a file its predecessor's `online` as `times`, the first leave raises. */
  lemma InheritedTimesRejectLeave(st: FileState, d: Dict<Entry>, seconds: int, name: string)
    requires st.times == PrevOnline(d)
    ensures LeaveStep(st, seconds, name) ==
      if name in st.online.values then Err(TimesNotAList) else Err(LeftWithoutJoin(name))
  {
  }

  // ---------------------------------------------------------------------------------------
  // What the line loop promises

  /** No action touches `first_event` or `last_event`. */
  lemma ActKeepsEvents(v: StopVersion, st: FileState, seconds: int, event: Event)
    ensures Act(v, st, seconds, event).Ok? ==>
      Act(v, st, seconds, event).value.firstEvent == st.firstEvent &&
      Act(v, st, seconds, event).value.lastEvent == st.lastEvent
  {
    if event.Stop? && st.online.Valid() && st.times.List? {
      StopClosesAll(st, seconds);
    }
    if event.Stop? {
      CloseAllKeepsEvents(st.(stopped := true), seconds, st.online.keys);
    }
  }

  lemma {:induction false} CloseAllKeepsEvents(st: FileState, seconds: int, names: seq<string>)
    ensures CloseAll(st, seconds, names).Ok? ==>
      CloseAll(st, seconds, names).value.firstEvent == st.firstEvent &&
      CloseAll(st, seconds, names).value.lastEvent == st.lastEvent
    decreases |names|
  {
    if names != [] && LeaveStep(st, seconds, names[0]).Ok? {
      CloseAllKeepsEvents(LeaveStep(st, seconds, names[0]).value, seconds, names[1..]);
    }
  }

  /**
   * Converting keeps `first_event <= last_event`: `first_event` stays once set and otherwise
   * becomes the first timestamp, and `last_event` ends at least at every timestamp seen.
   */
  lemma {:induction false} RunEvents(v: StopVersion, st: FileState, lines: seq<Line>)
    requires EventsOrdered(st)
    ensures var r := Run(v, st, lines);
      r.Ok? ==>
        && EventsOrdered(r.value)
        && r.value.firstEvent == (if st.firstEvent.Some? then st.firstEvent else FirstTimed(lines))
        && (st.lastEvent.Some? ==> r.value.lastEvent.Some? && st.lastEvent.value <= r.value.lastEvent.value)
        && (forall i | 0 <= i < |lines| && lines[i].Timed? ::
              r.value.lastEvent.Some? && lines[i].seconds <= r.value.lastEvent.value)
    decreases |lines|
  {
    if lines != [] && Step(v, st, lines[0]).Ok? {
      var s := Step(v, st, lines[0]).value;
      if lines[0].Timed? {
        ActKeepsEvents(v, Touch(st, lines[0].seconds), lines[0].seconds, lines[0].event);
      }
      RunEvents(v, s, lines[1..]);
      var r := Run(v, s, lines[1..]);
      if r.Ok? {
        forall i | 0 <= i < |lines| && lines[i].Timed?
          ensures r.value.lastEvent.Some? && lines[i].seconds <= r.value.lastEvent.value
        {
          if i > 0 {
            assert lines[1..][i - 1] == lines[i];
          }
        }
      }
    }
  }

  /** `read_log` on a `.yaml` file written with `started: true` or `started: false` reads the flag back. */
  lemma PeekYamlReadsHeader(b: bool, tail: string, rest: seq<string>)
    ensures PeekYaml([STARTED + (if b then "true" else "false") + tail] + rest) == Ok(b)
  {
    var line := STARTED + (if b then "true" else "false") + tail;
    assert line[..|STARTED|] == STARTED;
    assert line[|STARTED|] == if b then 't' else 'f';
  }

  // ---------------------------------------------------------------------------------------
  // `AllLogs` name helpers

  /** The condition `get_split_log_names_between` filters with: `from <= log < to`. */
  predicate InRange(log: seq<int>, from: Option<seq<int>>, to: Option<seq<int>>)
  {
    && (from.Some? ==> LexLessEq(from.value, log))
    && (to.Some? ==> LexLess(log, to.value))
  }

  function FilterRange(logs: seq<seq<int>>, from: Option<seq<int>>, to: Option<seq<int>>): seq<seq<int>>
    decreases |logs|
  {
    if logs == [] then []
    else
      var rest := FilterRange(logs[..|logs| - 1], from, to);
      var k := logs[|logs| - 1];
      if InRange(k, from, to) then rest + [k] else rest
  }

  /**
   * `get_split_log_names_between`: the split names with `from <= log < to` under list
   * comparison, a missing bound not restricting; a bound that is not dash-separated
   * integers raises.
   */
  function SplitLogNamesBetween(logs: seq<seq<int>>, fromLog: Option<string>, toLog: Option<string>)
    : Result<seq<seq<int>>, LogNameError>
  {
    match ParseBound(fromLog)
    case Err(e) => Err(e)
    case Ok(from) =>
      match ParseBound(toLog)
      case Err(e) => Err(e)
      case Ok(to) => Ok(FilterRange(logs, from, to))
  }

  /** The kept names are exactly those in range, each as often as it occurs. */
  lemma {:induction false} FilterRangeCounts(logs: seq<seq<int>>, from: Option<seq<int>>, to: Option<seq<int>>, k: seq<int>)
    ensures multiset(FilterRange(logs, from, to))[k] == if InRange(k, from, to) then multiset(logs)[k] else 0
    decreases |logs|
  {
    if logs != [] {
      FilterRangeCounts(logs[..|logs| - 1], from, to, k);
      assert logs == logs[..|logs| - 1] + [logs[|logs| - 1]];
    }
  }

  /** Filtering keeps the order: sorted names give sorted names. */
  lemma {:induction false} FilterRangeSorted(logs: seq<seq<int>>, from: Option<seq<int>>, to: Option<seq<int>>)
    requires Sorted(logs)
    ensures Sorted(FilterRange(logs, from, to))
    decreases |logs|
  {
    if logs != [] {
      var init := logs[..|logs| - 1];
      var k := logs[|logs| - 1];
      assert Sorted(init);
      FilterRangeSorted(init, from, to);
      var rest := FilterRange(init, from, to);
      forall i | 0 <= i < |rest| ensures LexLessEq(rest[i], k) {
        FilterRangeCounts(init, from, to, rest[i]);
        assert rest[i] in multiset(rest);
        assert rest[i] in init;
      }
    }
  }

  /**
   * `join_split_name` is `'%i-%02i-%02i-%i'`, the format of `join_from_compare`: month and day
   * come out as two digits, and the name splits back into the numbers.
   */
  lemma JoinSplitNameRoundTrip(t: seq<int>)
    requires |t| == 4 && forall i | 0 <= i < 4 :: t[i] >= 0
    requires t[1] < 100 && t[2] < 100
    ensures JoinFromCompare(t).Ok?
    ensures var parts := Split(JoinFromCompare(t).value, DASH);
      |parts| == 4 && |parts[1]| == 2 && |parts[2]| == 2 && ParseAll(parts) == Ok(t)
  {
    FieldsParse(t);
    SplitJoinDash(Fields(t));
    TwoDigits(t[1]);
    TwoDigits(t[2]);
  }

  lemma TwoDigits(n: nat)
    requires n < 100
    ensures |Format02(n)| == 2
  {
    if n >= 10 {
      assert FormatNat(n) == FormatNat(n / 10) + [DigitChar(n % 10)];
    }
  }
}
