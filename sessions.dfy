/**
 * The per-file session tracker of mcserverstats/logalyzer.py (class `LogFile`) as values.
 * A log file is reduced to whether its first line is the server boot line, and to its lines,
 * each classified into the event its action regex recognises. The functions here compute
 * what `convert_log` leaves in a `LogFile` when it inherits `online` and `last_event` from
 * its predecessor; class `LogFiles.LogFile` runs the same steps on mutable state.
 */
module Sessions {
  import opened Wrappers
  import opened Dicts

  /** An `online` entry `[uuid, join_time, login_count]`. */
  datatype Login = Login(uuid: string, joinTime: int, count: int)

  /**
   * A `times` entry `[uuid, from, to, name]`. `to` is `None` when a crash leave takes the
   * predecessor's `last_event` and that file had no timestamped line.
   */
  datatype Session = Session(uuid: string, from: int, to: Option<int>, name: string)

  /** What the first matching action regex makes of a line after its timestamp. */
  datatype Event =
    | NoAction
    | Uuid(name: string, uuid: string)
    | Join(name: string)
    | Leave(name: string, reason: string)
    | Stop

  /** A command-block line, a line without timestamp, or a timestamped line at `seconds`. */
  datatype Line = CommandBlock | Untimed | Timed(seconds: int, event: Event)

  /** A file's content: the time of its first line if that is the boot line, and its lines. */
  datatype LogText = LogText(boot: Option<int>, lines: seq<Line>)

  /** The boot line is the first line, so it is the first timestamped one. */
  ghost predicate WellFormedText(text: LogText)
  {
    text.boot.Some? ==> |text.lines| > 0 && text.lines[0] == Timed(text.boot.value, NoAction)
  }

  datatype Ledger = Ledger(online: Dict<Login>, times: seq<Session>)

  /** The attributes `convert_log` writes: `uuids`, `online`, `times`, `stopped`, the events. */
  datatype FileState = FileState(
    uuids: map<string, string>,
    ledger: Ledger,
    stopped: bool,
    firstEvent: Option<int>,
    lastEvent: Option<int>)

  /** What a file takes over from its predecessor: the `online` dict and `last_event`. */
  datatype Inheritance = Inheritance(online: Dict<Login>, lastEvent: Option<int>)

  datatype ConvertError =
    | FirstLogNoStart              // `ValueError('First log and no server start')`
    | LeftMoreThanJoined(name: string)

  /** Every player in `online` is listed once and has a login count of at least one. */
  ghost predicate OnlineInvariant(online: Dict<Login>)
  {
    && online.Valid()
    && forall k | k in online.values :: online.values[k].count >= 1
  }

  // ---------------------------------------------------------------------------------------
  // The `found_*` actions

  /** The UUID a join is filed under: the last one announced for the name, else the name. */
  function UuidFor(uuids: map<string, string>, name: string): string
  {
    if name in uuids then uuids[name] else name
  }

  /** `found_join`: a repeated join only counts up; a first join records uuid and time. */
  function FoundJoin(online: Dict<Login>, uuids: map<string, string>, seconds: int, name: string): Dict<Login>
  {
    if name in online.values then
      var e := online.values[name];
      online.Put(name, e.(count := e.count + 1))
    else
      online.Put(name, Login(UuidFor(uuids, name), seconds, 1))
  }

  /**
   * `found_leave`: ignored for a player not online; otherwise the count goes down, and at
   * zero the player is dropped and one session is recorded.
   */
  function FoundLeave(ledger: Ledger, seconds: Option<int>, name: string): Result<Ledger, ConvertError>
  {
    if name !in ledger.online.values then Ok(ledger)
    else
      var e := ledger.online.values[name];
      var n := e.count - 1;
      var online := ledger.online.Put(name, e.(count := n));
      if n == 0 then Ok(Ledger(online.Delete(name), ledger.times + [Session(e.uuid, e.joinTime, seconds, name)]))
      else if n < 0 then Err(LeftMoreThanJoined(name))
      else Ok(Ledger(online, ledger.times))
  }

  /** `for name in names: found_leave(-1, seconds, name, ...)`, stopping at an error. */
  function LeaveAll(ledger: Ledger, seconds: Option<int>, names: seq<string>): Result<Ledger, ConvertError>
    decreases |names|
  {
    if names == [] then Ok(ledger)
    else
      match LeaveAll(ledger, seconds, names[..|names| - 1])
      case Err(e) => Err(e)
      case Ok(l) => FoundLeave(l, seconds, names[|names| - 1])
  }

  // ---------------------------------------------------------------------------------------
  // The line loop of `convert_log`

  /** `first_event` is set by the first timestamp; `last_event` keeps the largest. */
  function Touch(st: FileState, seconds: int): FileState
  {
    st.(firstEvent := if st.firstEvent.None? then Some(seconds) else st.firstEvent,
        lastEvent := if st.lastEvent.None? || st.lastEvent.value < seconds then Some(seconds) else st.lastEvent)
  }

  /** The action of one timestamped line. `found_stop` only raises the flag. */
  function Act(st: FileState, seconds: int, event: Event): Result<FileState, ConvertError>
  {
    match event
    case NoAction => Ok(st)
    case Uuid(name, uuid) => Ok(st.(uuids := st.uuids[name := uuid]))
    case Join(name) => Ok(st.(ledger := st.ledger.(online := FoundJoin(st.ledger.online, st.uuids, seconds, name))))
    case Leave(name, _) =>
      (match FoundLeave(st.ledger, Some(seconds), name)
       case Err(e) => Err(e)
       case Ok(l) => Ok(st.(ledger := l)))
    case Stop => Ok(st.(stopped := true))
  }

  function Step(st: FileState, line: Line): Result<FileState, ConvertError>
  {
    match line
    case Timed(seconds, event) => Act(Touch(st, seconds), seconds, event)
    case _ => Ok(st)
  }

  function Run(st: FileState, lines: seq<Line>): Result<FileState, ConvertError>
    decreases |lines|
  {
    if lines == [] then Ok(st)
    else
      match Run(st, lines[..|lines| - 1])
      case Err(e) => Err(e)
      case Ok(s) => Step(s, lines[|lines| - 1])
  }

  /** After the lines: a stopped server sends every player still online one leave at `last_event`. */
  function CloseStopped(st: FileState): Result<FileState, ConvertError>
  {
    if !st.stopped then Ok(st)
    else
      match LeaveAll(st.ledger, st.lastEvent, st.ledger.online.keys)
      case Err(e) => Err(e)
      case Ok(l) => Ok(st.(ledger := l))
  }

  /**
   * The state before the line loop. A successor takes over the predecessor's `online`; if it
   * starts fresh, the server crashed, and each inherited player gets one leave at the
   * predecessor's `last_event`. A file without predecessor starts from `{}`.
   */
  function Begin(prev: Option<Inheritance>, text: LogText): Result<Ledger, ConvertError>
  {
    match prev
    case None => if text.boot.None? then Err(FirstLogNoStart) else Ok(Ledger(Empty(), []))
    case Some(inh) =>
      if text.boot.Some? then LeaveAll(Ledger(inh.online, []), inh.lastEvent, inh.online.keys)
      else Ok(Ledger(inh.online, []))
  }

  /** `convert_log` after `peek_start`: `first_event` starts as the boot line's time, if any. */
  function Convert(prev: Option<Inheritance>, text: LogText): Result<FileState, ConvertError>
  {
    match Begin(prev, text)
    case Err(e) => Err(e)
    case Ok(l) =>
      match Run(FileState(map[], l, false, text.boot, None), text.lines)
      case Err(e) => Err(e)
      case Ok(st) => CloseStopped(st)
  }

  /** What the predecessor in state `st` hands on. */
  function Inherit(st: FileState): Inheritance
  {
    Inheritance(st.ledger.online, st.lastEvent)
  }

  /** Reading the last of a chain of files: each is converted after its predecessor. */
  function ConvertChain(texts: seq<LogText>): (r: Result<seq<FileState>, ConvertError>)
    ensures r.Ok? ==> |r.value| == |texts|
    decreases |texts|
  {
    if texts == [] then Ok([])
    else
      match ConvertChain(texts[..|texts| - 1])
      case Err(e) => Err(e)
      case Ok(states) =>
        var prev := if states == [] then None else Some(Inherit(states[|states| - 1]));
        match Convert(prev, texts[|texts| - 1])
        case Err(e) => Err(e)
        case Ok(st) => Ok(states + [st])
  }

  /** Once a leave fails, the names after it are never reached: the first error is the result. */
  lemma {:induction false} LeaveAllStopsAtError(ledger: Ledger, seconds: Option<int>, names: seq<string>, k: nat)
    requires k <= |names|
    requires LeaveAll(ledger, seconds, names[..k]).Err?
    ensures LeaveAll(ledger, seconds, names) == LeaveAll(ledger, seconds, names[..k])
    decreases |names| - k
  {
    if k == |names| {
      assert names[..k] == names;
    } else {
      assert names[..k + 1][..k] == names[..k];
      LeaveAllStopsAtError(ledger, seconds, names, k + 1);
    }
  }

  /** Once a line fails, `convert_log` raises: the lines after it are never reached. */
  lemma {:induction false} RunStopsAtError(st: FileState, lines: seq<Line>, k: nat)
    requires k <= |lines|
    requires Run(st, lines[..k]).Err?
    ensures Run(st, lines) == Run(st, lines[..k])
    decreases |lines| - k
  {
    if k == |lines| {
      assert lines[..k] == lines;
    } else {
      assert lines[..k + 1][..k] == lines[..k];
      RunStopsAtError(st, lines, k + 1);
    }
  }

  // ---------------------------------------------------------------------------------------
  // The actions

  /**
   * A join files the player under the last UUID announced for the name, or under the name.
   * A first join appends `[uuid, t, 1]` to the order; a repeated join keeps uuid, join time
   * and place, and counts one more login. Either way the invariant of `online` is kept.
   */
  lemma JoinCases(online: Dict<Login>, uuids: map<string, string>, seconds: int, name: string)
    requires OnlineInvariant(online)
    ensures var r := FoundJoin(online, uuids, seconds, name);
      && OnlineInvariant(r)
      && r.values.Keys == online.values.Keys + {name}
      && (forall k | k in online.values && k != name :: r.values[k] == online.values[k])
      && (name in online.values ==>
            r.keys == online.keys && r.values[name].uuid == online.values[name].uuid &&
            r.values[name].joinTime == online.values[name].joinTime &&
            r.values[name].count == online.values[name].count + 1)
      && (name !in online.values ==>
            r.keys == online.keys + [name] &&
            r.values[name] == Login(if name in uuids then uuids[name] else name, seconds, 1))
  {
  }

  /** A leave for a player who is not online changes nothing. */
  lemma LeaveWhileOffline(ledger: Ledger, seconds: Option<int>, name: string)
    requires name !in ledger.online.values
    ensures FoundLeave(ledger, seconds, name) == Ok(ledger)
  {
  }

  /**
   * A leave of an online player never fails while every count is at least one. At count one
   * the player is dropped and exactly one session `[uuid, join, t, name]` is appended;
   * above one the count drops by one and `times` is untouched. The invariant is kept.
   */
  lemma LeaveCases(ledger: Ledger, seconds: Option<int>, name: string)
    requires OnlineInvariant(ledger.online)
    requires name in ledger.online.values
    ensures var r := FoundLeave(ledger, seconds, name);
      var e := ledger.online.values[name];
      && r.Ok?
      && OnlineInvariant(r.value.online)
      && (e.count == 1 ==>
            var keys, i := ledger.online.keys, IndexOf(ledger.online.keys, name);
            r.value.online.keys == keys[..i] + keys[i + 1..] &&
            r.value.online.values == ledger.online.values - {name} &&
            r.value.times == ledger.times + [Session(e.uuid, e.joinTime, seconds, name)])
      && (e.count > 1 ==>
            r.value.online.keys == ledger.online.keys &&
            r.value.online.values == ledger.online.values[name := e.(count := e.count - 1)] &&
            r.value.times == ledger.times)
  {
    var e := ledger.online.values[name];
    assert name in ledger.online.keys;
    var online := ledger.online.Put(name, e.(count := e.count - 1));
    assert online.keys == ledger.online.keys && online.Valid();
    if e.count == 1 {
      var d := online.Delete(name);
      assert FoundLeave(ledger, seconds, name) == Ok(Ledger(d, ledger.times + [Session(e.uuid, e.joinTime, seconds, name)]));
      assert d.values == ledger.online.values - {name};
    } else {
      assert FoundLeave(ledger, seconds, name) == Ok(Ledger(online, ledger.times));
    }
  }

  /** The `online` mapping after one leave of `x`: a player logged in once goes, any other loses a login. */
  function LeaveOnce(values: map<string, Login>, x: string): map<string, Login>
  {
    if x !in values then values
    else if values[x].count == 1 then values - {x}
    else values[x := values[x].(count := values[x].count - 1)]
  }

  /** The `online` mapping after one leave for each of `names`, in order. */
  function AfterLeaves(values: map<string, Login>, names: seq<string>): map<string, Login>
    decreases |names|
  {
    if names == [] then values
    else LeaveOnce(AfterLeaves(values, names[..|names| - 1]), names[|names| - 1])
  }

  /**
   * Reference definition of the same mapping when each name is listed at most once: the listed
   * players logged in once are gone, the other listed players have one login fewer.
   */
  function DecrementedOnce(values: map<string, Login>, names: seq<string>): map<string, Login>
  {
    map k | k in values && (k in names ==> values[k].count > 1) ::
      if k in names then values[k].(count := values[k].count - 1) else values[k]
  }

  /** The sessions those leaves record: one per name logged in once, in the order of `names`. */
  function Closed(values: map<string, Login>, names: seq<string>, seconds: Option<int>): seq<Session>
    decreases |names|
  {
    if names == [] then []
    else
      var k := names[|names| - 1];
      Closed(values, names[..|names| - 1], seconds) +
        (if k in values && values[k].count == 1 then [Session(values[k].uuid, values[k].joinTime, seconds, k)] else [])
  }

  /**
   * The stop and crash loops: one leave per listed name. A player logged in once is closed
   * at `seconds`; a player counted twice or more stays online with one login fewer.
   */
  lemma {:induction false} LeaveAllCloses(ledger: Ledger, seconds: Option<int>, names: seq<string>)
    requires OnlineInvariant(ledger.online)
    requires Distinct(names)
    requires forall k | k in names :: k in ledger.online.values
    ensures var r := LeaveAll(ledger, seconds, names);
      && r.Ok?
      && OnlineInvariant(r.value.online)
      && r.value.online.values == AfterLeaves(ledger.online.values, names)
      && r.value.times == ledger.times + Closed(ledger.online.values, names, seconds)
    decreases |names|
  {
    if names == [] {
      assert AfterLeaves(ledger.online.values, names) == ledger.online.values;
    } else {
      DistinctLast(names);
      LeaveAllCloses(ledger, seconds, names[..|names| - 1]);
      LeaveAllStep(ledger, seconds, names);
    }
  }

  /** Dropping the last name of a list without repeats leaves a list without repeats that lacks it. */
  lemma DistinctLast(names: seq<string>)
    requires names != [] && Distinct(names)
    ensures Distinct(names[..|names| - 1]) && names[|names| - 1] !in names[..|names| - 1]
    ensures forall k | k in names[..|names| - 1] :: k in names
  {
  }

  /** The inductive step of `LeaveAllCloses`: one more leave, for the last name. */
  lemma LeaveAllStep(ledger: Ledger, seconds: Option<int>, names: seq<string>)
    requires OnlineInvariant(ledger.online)
    requires names != [] && names[|names| - 1] !in names[..|names| - 1]
    requires names[|names| - 1] in ledger.online.values
    requires var r := LeaveAll(ledger, seconds, names[..|names| - 1]);
      && r.Ok?
      && OnlineInvariant(r.value.online)
      && r.value.online.values == AfterLeaves(ledger.online.values, names[..|names| - 1])
      && r.value.times == ledger.times + Closed(ledger.online.values, names[..|names| - 1], seconds)
    ensures var r := LeaveAll(ledger, seconds, names);
      && r.Ok?
      && OnlineInvariant(r.value.online)
      && r.value.online.values == AfterLeaves(ledger.online.values, names)
      && r.value.times == ledger.times + Closed(ledger.online.values, names, seconds)
  {
    var values := ledger.online.values;
    var prefix, x := names[..|names| - 1], names[|names| - 1];
    var l := LeaveAll(ledger, seconds, prefix).value;
    AfterLeavesElsewhere(values, prefix, x);
    ClosedLast(ledger.times, values, names, seconds);
    LeaveOneMore(l, x, seconds, values[x]);
  }

  /** The order of the players the leaves of `names` leave online: that of `Survivors`. */
  lemma {:induction false} LeaveAllKeys(ledger: Ledger, seconds: Option<int>, names: seq<string>)
    requires OnlineInvariant(ledger.online)
    requires Distinct(names)
    requires forall k | k in names :: k in ledger.online.values
    ensures var r := LeaveAll(ledger, seconds, names);
      r.Ok? && r.value.online.keys == Survivors(ledger.online.keys, ledger.online.values, names)
    decreases |names|
  {
    if names == [] {
      SurvivorsOfNone(ledger.online.keys, ledger.online.values);
    } else {
      var values := ledger.online.values;
      var prefix, x := names[..|names| - 1], names[|names| - 1];
      DistinctLast(names);
      LeaveAllKeys(ledger, seconds, prefix);
      LeaveAllCloses(ledger, seconds, prefix);
      var l := LeaveAll(ledger, seconds, prefix).value;
      AfterLeavesElsewhere(values, prefix, x);
      LeaveKeysStep(l, x, seconds, ledger.online.keys, values, prefix);
      assert names == prefix + [x];
    }
  }

  /** One leave, for `x`, takes the order of `Survivors` over `prefix` to that over `prefix + [x]`. */
  lemma LeaveKeysStep(l: Ledger, x: string, seconds: Option<int>, keys: seq<string>, values: map<string, Login>, prefix: seq<string>)
    requires OnlineInvariant(l.online)
    requires x !in prefix && x in values && x in l.online.values && l.online.values[x] == values[x]
    requires l.online.keys == Survivors(keys, values, prefix)
    ensures var r := FoundLeave(l, seconds, x);
      r.Ok? && r.value.online.keys == Survivors(keys, values, prefix + [x])
  {
    LeaveOneMore(l, x, seconds, values[x]);
    SurvivorsStep(keys, values, prefix, x);
  }

  /**
   * The keys still in `online`, in their order, after one leave for each of `names` from
   * `values`: the listed players logged in once are gone.
   */
  function Survivors(keys: seq<string>, values: map<string, Login>, names: seq<string>): seq<string>
    decreases |keys|
  {
    if keys == [] then []
    else
      var k := keys[0];
      (if k in names && k in values && values[k].count == 1 then [] else [k]) + Survivors(keys[1..], values, names)
  }

  /** A key survives exactly when it is not a listed player logged in once. */
  lemma {:induction false} SurvivorsMembers(keys: seq<string>, values: map<string, Login>, names: seq<string>)
    ensures forall k :: k in Survivors(keys, values, names) <==>
      k in keys && !(k in names && k in values && values[k].count == 1)
    decreases |keys|
  {
    if keys != [] {
      SurvivorsMembers(keys[1..], values, names);
      assert keys == [keys[0]] + keys[1..];
    }
  }

  /** With no leaves, every key stays. */
  lemma {:induction false} SurvivorsOfNone(keys: seq<string>, values: map<string, Login>)
    ensures Survivors(keys, values, []) == keys
    decreases |keys|
  {
    if keys != [] {
      SurvivorsOfNone(keys[1..], values);
      assert [keys[0]] + keys[1..] == keys;
    }
  }

  /** One more leave, for a name not listed before, removes it exactly when it was logged in once. */
  lemma {:induction false} SurvivorsStep(keys: seq<string>, values: map<string, Login>, prefix: seq<string>, x: string)
    requires x !in prefix
    ensures x in values && values[x].count == 1 ==>
      Survivors(keys, values, prefix + [x]) == Remove(Survivors(keys, values, prefix), x)
    ensures !(x in values && values[x].count == 1) ==>
      Survivors(keys, values, prefix + [x]) == Survivors(keys, values, prefix)
    decreases |keys|
  {
    if keys != [] {
      SurvivorsStep(keys[1..], values, prefix, x);
      var k := keys[0];
      var head := if k in prefix && k in values && values[k].count == 1 then [] else [k];
      var tail := Survivors(keys[1..], values, prefix);
      assert Survivors(keys, values, prefix) == head + tail;
      if head == [k] {
        assert (head + tail)[1..] == tail;
      } else {
        assert head + tail == tail;
      }
    }
  }

  /** The sessions the leaves of `names` record: those of all but the last name, then the last's. */
  lemma ClosedLast(times: seq<Session>, values: map<string, Login>, names: seq<string>, seconds: Option<int>)
    requires names != [] && names[|names| - 1] in values
    ensures var x := names[|names| - 1];
      times + Closed(values, names, seconds) ==
        (times + Closed(values, names[..|names| - 1], seconds)) +
        (if values[x].count == 1 then [Session(values[x].uuid, values[x].joinTime, seconds, x)] else [])
  {
  }

  /** One step of the loop in `LeaveAllCloses`, stated without the comprehension. */
  lemma LeaveOneMore(l: Ledger, x: string, seconds: Option<int>, e: Login)
    requires OnlineInvariant(l.online)
    requires x in l.online.values && l.online.values[x] == e
    ensures var r := FoundLeave(l, seconds, x);
      && r.Ok? && OnlineInvariant(r.value.online)
      && r.value.online.keys == (if e.count == 1 then Remove(l.online.keys, x) else l.online.keys)
      && r.value.online.values == LeaveOnce(l.online.values, x)
      && r.value.times == l.times + (if e.count == 1 then [Session(e.uuid, e.joinTime, seconds, x)] else [])
  {
    LeaveCases(l, seconds, x);
    var r := FoundLeave(l, seconds, x).value;
    if e.count == 1 {
      var keys := l.online.keys;
      assert x in keys;
      var i := IndexOf(keys, x);
      RemoveAt(keys, x, i);
      assert r.online.keys == Remove(keys, x);
      assert r.online.values == LeaveOnce(l.online.values, x);
    } else {
      assert r.online.values == LeaveOnce(l.online.values, x);
    }
  }

  /** The leaves of other players leave `x`'s entry as it was. */
  lemma {:induction false} AfterLeavesElsewhere(values: map<string, Login>, names: seq<string>, x: string)
    requires x !in names
    ensures x in AfterLeaves(values, names) <==> x in values
    ensures x in values ==> AfterLeaves(values, names)[x] == values[x]
    decreases |names|
  {
    if names != [] {
      AfterLeavesElsewhere(values, names[..|names| - 1], x);
    }
  }

  /** With every count positive and no name repeated, the leaves one by one give the reference mapping. */
  lemma {:induction false} AfterLeavesClosedForm(values: map<string, Login>, names: seq<string>)
    requires forall k | k in values :: values[k].count >= 1
    requires Distinct(names)
    ensures AfterLeaves(values, names) == DecrementedOnce(values, names)
    decreases |names|
  {
    if names == [] {
      assert DecrementedOnce(values, names) == values;
    } else {
      var x, prefix := names[|names| - 1], names[..|names| - 1];
      DistinctLast(names);
      AfterLeavesClosedForm(values, prefix);
      assert forall k :: k in names <==> k in prefix || k == x by {
        assert names == prefix + [x];
      }
    }
  }

  /** The crash close as a whole: every inherited player is offered exactly one leave. */
  lemma CrashCloses(inh: Inheritance, text: LogText)
    requires OnlineInvariant(inh.online)
    ensures var r := Begin(Some(inh), text);
      && r.Ok?
      && OnlineInvariant(r.value.online)
      && (text.boot.None? ==> r.value == Ledger(inh.online, []))
      && (text.boot.Some? ==>
            r.value.online.keys == Survivors(inh.online.keys, inh.online.values, inh.online.keys) &&
            r.value.online.values == DecrementedOnce(inh.online.values, inh.online.keys) &&
            r.value.times == Closed(inh.online.values, inh.online.keys, inh.lastEvent))
  {
    if text.boot.Some? {
      LeaveAllCloses(Ledger(inh.online, []), inh.lastEvent, inh.online.keys);
      LeaveAllKeys(Ledger(inh.online, []), inh.lastEvent, inh.online.keys);
      AfterLeavesClosedForm(inh.online.values, inh.online.keys);
    }
  }

  /**
   * `found_stop` only raises the flag, also on a second stop; the closing happens after the
   * last line, where each player still online gets one leave at `last_event`.
   */
  lemma StopCloses(st: FileState, seconds: int)
    requires OnlineInvariant(st.ledger.online)
    ensures Act(st, seconds, Stop) == Ok(st.(stopped := true))
    ensures var r := CloseStopped(st);
      && r.Ok?
      && OnlineInvariant(r.value.ledger.online)
      && r.value.stopped == st.stopped && r.value.firstEvent == st.firstEvent && r.value.lastEvent == st.lastEvent
      && (!st.stopped ==> r.value == st)
      && (st.stopped ==>
            r.value.ledger.online.keys == Survivors(st.ledger.online.keys, st.ledger.online.values, st.ledger.online.keys) &&
            r.value.ledger.online.values == DecrementedOnce(st.ledger.online.values, st.ledger.online.keys) &&
            r.value.ledger.times == st.ledger.times + Closed(st.ledger.online.values, st.ledger.online.keys, st.lastEvent))
  {
    if st.stopped {
      LeaveAllCloses(st.ledger, st.lastEvent, st.ledger.online.keys);
      LeaveAllKeys(st.ledger, st.lastEvent, st.ledger.online.keys);
      AfterLeavesClosedForm(st.ledger.online.values, st.ledger.online.keys);
    }
  }

  // ---------------------------------------------------------------------------------------
  // The invariant of `online` over whole files

  lemma StepKeepsInvariant(st: FileState, line: Line)
    requires OnlineInvariant(st.ledger.online)
    ensures Step(st, line).Ok? && OnlineInvariant(Step(st, line).value.ledger.online)
  {
    if line.Timed? {
      var s := Touch(st, line.seconds);
      match line.event
      case Join(name) => JoinCases(s.ledger.online, s.uuids, line.seconds, name);
      case Leave(name, _) =>
        if name in s.ledger.online.values {
          LeaveCases(s.ledger, Some(line.seconds), name);
        }
      case _ =>
    }
  }

  lemma {:induction false} RunKeepsInvariant(st: FileState, lines: seq<Line>)
    requires OnlineInvariant(st.ledger.online)
    ensures Run(st, lines).Ok? && OnlineInvariant(Run(st, lines).value.ledger.online)
    decreases |lines|
  {
    if lines != [] {
      RunKeepsInvariant(st, lines[..|lines| - 1]);
      StepKeepsInvariant(Run(st, lines[..|lines| - 1]).value, lines[|lines| - 1]);
    }
  }

  /**
   * A conversion fails only for a first file without boot line, so the negative-count
   * `ValueError` of `found_leave` is unreachable; the handed-on `online` keeps the invariant.
   */
  lemma ConvertOutcome(prev: Option<Inheritance>, text: LogText)
    requires prev.Some? ==> OnlineInvariant(prev.value.online)
    ensures Convert(prev, text).Err? <==> prev.None? && text.boot.None?
    ensures Convert(prev, text).Err? ==> Convert(prev, text).error == FirstLogNoStart
    ensures Convert(prev, text).Ok? ==> OnlineInvariant(Convert(prev, text).value.ledger.online)
  {
    if prev.Some? {
      CrashCloses(prev.value, text);
    }
    var b := Begin(prev, text);
    if b.Ok? {
      var st := FileState(map[], b.value, false, text.boot, None);
      RunKeepsInvariant(st, text.lines);
      StopCloses(Run(st, text.lines).value, 0);
    }
  }

  /** Reading a chain fails exactly when its first file does not start with the boot line. */
  lemma {:induction false} ChainOutcome(texts: seq<LogText>)
    ensures ConvertChain(texts).Err? <==> texts != [] && texts[0].boot.None?
    ensures ConvertChain(texts).Err? ==> ConvertChain(texts).error == FirstLogNoStart
    ensures ConvertChain(texts).Ok? ==>
      && |ConvertChain(texts).value| == |texts|
      && forall i | 0 <= i < |texts| :: OnlineInvariant(ConvertChain(texts).value[i].ledger.online)
    decreases |texts|
  {
    if texts != [] {
      var init := texts[..|texts| - 1];
      ChainOutcome(init);
      match ConvertChain(init)
      case Err(e) =>
        assert texts[0] == init[0];
      case Ok(states) =>
        var prev := if states == [] then None else Some(Inherit(states[|states| - 1]));
        ConvertOutcome(prev, texts[|texts| - 1]);
        if states != [] {
          assert texts[0] == init[0];
        }
    }
  }

  /**
   * Reading a chain reads each of its prefixes the same way: a successful read yields, for
   * every prefix, the matching prefix of states, and a prefix that fails makes the whole
   * chain fail with the same error.
   */
  lemma {:induction false} ChainPrefix(texts: seq<LogText>, k: nat)
    requires k <= |texts|
    ensures ConvertChain(texts).Ok? ==>
      && k <= |ConvertChain(texts).value|
      && ConvertChain(texts[..k]) == Ok(ConvertChain(texts).value[..k])
    ensures ConvertChain(texts[..k]).Err? ==> ConvertChain(texts) == ConvertChain(texts[..k])
    decreases |texts| - k
  {
    ChainOutcome(texts);
    if k == |texts| {
      assert texts[..k] == texts;
      if ConvertChain(texts).Ok? {
        assert ConvertChain(texts).value[..k] == ConvertChain(texts).value;
      }
    } else {
      var init := texts[..|texts| - 1];
      ChainPrefix(init, k);
      assert init[..k] == texts[..k];
      ChainOutcome(init);
      assert ConvertChain(init).Err? ==> ConvertChain(texts) == ConvertChain(init);
      if ConvertChain(texts).Ok? {
        var states := ConvertChain(init).value;
        var all := ConvertChain(texts).value;
        assert all == states + [all[|all| - 1]];
        assert all[..k] == states[..k];
      }
    }
  }

  // ---------------------------------------------------------------------------------------
  // `first_event` and `last_event`

  /** The timestamps of the lines, in order. */
  function Stamps(lines: seq<Line>): seq<int>
    decreases |lines|
  {
    if lines == [] then []
    else
      var last := lines[|lines| - 1];
      Stamps(lines[..|lines| - 1]) + (if last.Timed? then [last.seconds] else [])
  }

  /** The running maximum `last_event` keeps, starting from `acc`. */
  function Latest(acc: Option<int>, xs: seq<int>): Option<int>
    decreases |xs|
  {
    if xs == [] then acc
    else
      var m := Latest(acc, xs[..|xs| - 1]);
      if m.None? || m.value < xs[|xs| - 1] then Some(xs[|xs| - 1]) else m
  }

  lemma {:induction false} LatestIsMaximum(acc: Option<int>, xs: seq<int>)
    ensures Latest(acc, xs).Some? <==> acc.Some? || xs != []
    ensures forall i | 0 <= i < |xs| :: xs[i] <= Latest(acc, xs).value
    ensures acc.Some? ==> acc.value <= Latest(acc, xs).value
    decreases |xs|
  {
    if xs != [] {
      LatestIsMaximum(acc, xs[..|xs| - 1]);
      assert forall i | 0 <= i < |xs| - 1 :: xs[i] == xs[..|xs| - 1][i];
    }
  }

  lemma {:induction false} StampsHead(lines: seq<Line>)
    requires lines != [] && lines[0].Timed?
    ensures Stamps(lines) != [] && Stamps(lines)[0] == lines[0].seconds
    decreases |lines|
  {
    if |lines| > 1 {
      StampsHead(lines[..|lines| - 1]);
    }
  }

  /** The actions never change `first_event` or `last_event`. */
  lemma ActKeepsEvents(st: FileState, seconds: int, event: Event)
    requires Act(st, seconds, event).Ok?
    ensures Act(st, seconds, event).value.firstEvent == st.firstEvent
    ensures Act(st, seconds, event).value.lastEvent == st.lastEvent
  {
  }

  /** The last line of a run: a timestamped line touches the events before its action. */
  lemma RunLast(st: FileState, lines: seq<Line>)
    requires lines != [] && Run(st, lines).Ok?
    ensures var s := Run(st, lines[..|lines| - 1]);
      var last := lines[|lines| - 1];
      && s.Ok?
      && (last.Timed? ==> Run(st, lines).value.firstEvent == Touch(s.value, last.seconds).firstEvent
                          && Run(st, lines).value.lastEvent == Touch(s.value, last.seconds).lastEvent)
      && (!last.Timed? ==> Run(st, lines).value == s.value)
  {
    var last := lines[|lines| - 1];
    if last.Timed? {
      var s := Run(st, lines[..|lines| - 1]).value;
      ActKeepsEvents(Touch(s, last.seconds), last.seconds, last.event);
    }
  }

  /** The timestamps of the lines: those before the last, then the last's own when it has one. */
  lemma StampsLast(lines: seq<Line>)
    requires lines != []
    ensures var xs, init, last := Stamps(lines), Stamps(lines[..|lines| - 1]), lines[|lines| - 1];
      && (last.Timed? ==> xs == init + [last.seconds] && xs[..|xs| - 1] == init && (init != [] ==> xs[0] == init[0]))
      && (!last.Timed? ==> xs == init)
  {
    var xs := Stamps(lines);
    if lines[|lines| - 1].Timed? {
      assert xs[..|xs| - 1] == Stamps(lines[..|lines| - 1]);
    }
  }

  lemma {:induction false} RunEvents(st: FileState, lines: seq<Line>)
    requires Run(st, lines).Ok?
    ensures var r := Run(st, lines).value; var xs := Stamps(lines);
      && r.firstEvent == (if st.firstEvent.Some? || xs == [] then st.firstEvent else Some(xs[0]))
      && r.lastEvent == Latest(st.lastEvent, xs)
    decreases |lines|
  {
    if lines != [] {
      RunLast(st, lines);
      RunEvents(st, lines[..|lines| - 1]);
      StampsLast(lines);
    }
  }

  /**
   * `first_event` is the first timestamp of the file, whether it came from the peeked boot line
   * or from the line loop, `last_event` is the largest, so `first_event <= last_event`.
   */
  lemma ConvertEvents(prev: Option<Inheritance>, text: LogText)
    requires WellFormedText(text)
    requires Convert(prev, text).Ok?
    ensures var st := Convert(prev, text).value; var xs := Stamps(text.lines);
      && st.firstEvent == (if xs == [] then None else Some(xs[0]))
      && st.lastEvent == Latest(None, xs)
      && (st.firstEvent.Some? <==> st.lastEvent.Some?)
      && (st.firstEvent.Some? ==> st.firstEvent.value <= st.lastEvent.value)
  {
    var l := Begin(prev, text).value;
    var start := FileState(map[], l, false, text.boot, None);
    RunEvents(start, text.lines);
    LatestIsMaximum(None, Stamps(text.lines));
    if text.boot.Some? {
      StampsHead(text.lines);
    }
  }
}
