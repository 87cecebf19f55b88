/**
 * `crop_and_add` inside `LogDirectory.collect_user_sessions` of mcserverstats/logalyzer.py, on
 * values: each session of an admitted identity is cut to the query window and, when something
 * is left, appended to the list of its uuid in `user_sessions`.
 */
module SessionCrops {
  import opened Wrappers
  import opened Dicts
  import opened Sessions

  /** `[uuid, t_from, t_to, name]` as `crop_and_add` stores it. */
  datatype Cropped = Cropped(uuid: string, from: int, to: int, name: string)

  /** The whitelist, `t_start` (`None` for minus infinity) and `t_end`. */
  datatype Window = Window(whitelist: Option<seq<string>>, start: Option<int>, end: int)

  /** `min(t_to, t_end)` with `t_to` still `None` raises a `TypeError`. */
  datatype CropError = LeaveTimeMissing

  /** `whitelist and uuid not in whitelist` fails: a missing or empty whitelist admits everyone. */
  predicate Admitted(w: Window, uuid: string)
  {
    w.whitelist.None? || w.whitelist.value == [] || uuid in w.whitelist.value
  }

  /** `max(t_from, t_start)` */
  function CropFrom(w: Window, from: int): int
  {
    if w.start.Some? && from < w.start.value then w.start.value else from
  }

  /** `min(t_to, t_end)` */
  function CropTo(w: Window, to: int): int
  {
    if w.end < to then w.end else to
  }

  /** `user_sessions.get(uuid, [])` */
  function Entries(d: Dict<seq<Cropped>>, uuid: string): seq<Cropped>
  {
    if uuid in d.values then d.values[uuid] else []
  }

  /** `crop_and_add(uuid, t_from, t_to, name)` for one session. */
  function CropAndAdd(d: Dict<seq<Cropped>>, w: Window, s: Session): Result<Dict<seq<Cropped>>, CropError>
  {
    if !Admitted(w, s.uuid) then Ok(d)
    else if s.to.None? then Err(LeaveTimeMissing)
    else
      var from := CropFrom(w, s.from);
      var to := CropTo(w, s.to.value);
      if from >= to then Ok(d)
      else Ok(d.Put(s.uuid, Entries(d, s.uuid) + [Cropped(s.uuid, from, to, s.name)]))
  }

  /** `crop_and_add` over the sessions in order, stopping at the first that raises. */
  function CropAll(d: Dict<seq<Cropped>>, w: Window, sessions: seq<Session>): Result<Dict<seq<Cropped>>, CropError>
    decreases |sessions|
  {
    if sessions == [] then Ok(d)
    else
      match CropAll(d, w, sessions[..|sessions| - 1])
      case Err(e) => Err(e)
      case Ok(d') => CropAndAdd(d', w, sessions[|sessions| - 1])
  }

  /**
   * The second loop of `collect_user_sessions` as sessions: each player still online is taken
   * from its join time up to `t_end`.
   */
  function OnlineSessions(online: Dict<Login>, names: seq<string>, end: int): (r: seq<Session>)
    requires forall n | n in names :: n in online.values
    ensures |r| == |names|
    ensures forall i | 0 <= i < |names| :: r[i] == Session(online.values[names[i]].uuid, online.values[names[i]].joinTime, Some(end), names[i])
    decreases |names|
  {
    if names == [] then []
    else
      var n := names[|names| - 1];
      OnlineSessions(online, names[..|names| - 1], end) + [Session(online.values[n].uuid, online.values[n].joinTime, Some(end), n)]
  }

  /**
   * Reference definition, one identity at a time: the cropped, non-empty intervals of the
   * sessions of `uuid`, in order, when `uuid` is admitted and no leave time is missing.
   */
  function Kept(w: Window, sessions: seq<Session>, uuid: string): seq<Cropped>
    decreases |sessions|
  {
    if sessions == [] then []
    else
      Kept(w, sessions[..|sessions| - 1], uuid) + KeptOne(w, sessions[|sessions| - 1], uuid)
  }

  /** The entry one session contributes to the list of `uuid`. */
  function KeptOne(w: Window, s: Session, uuid: string): seq<Cropped>
  {
    if s.uuid == uuid && Admitted(w, uuid) && s.to.Some? && CropFrom(w, s.from) < CropTo(w, s.to.value)
    then [Cropped(uuid, CropFrom(w, s.from), CropTo(w, s.to.value), s.name)]
    else []
  }

  /** Only a session without a leave time can make `crop_and_add` raise. */
  lemma CropAndAddLeft(d: Dict<seq<Cropped>>, w: Window, s: Session)
    ensures CropAndAdd(d, w, s).Err? <==> Admitted(w, s.uuid) && s.to.None?
  {
  }

  /** Every stored entry lies in the window, is non-empty and belongs to the admitted uuid it is filed under. */
  ghost predicate InWindow(w: Window, uuid: string, e: Cropped)
  {
    && e.uuid == uuid && Admitted(w, uuid)
    && (w.start.Some? ==> w.start.value <= e.from)
    && e.from < e.to <= w.end
  }

  // ---------------------------------------------------------------------------------------
  // Properties

  /** Lists in the dict are never empty, and the dict is well formed. */
  ghost predicate Grouped(d: Dict<seq<Cropped>>)
  {
    d.Valid() && forall u | u in d.values :: d.values[u] != []
  }

  /** One `crop_and_add` appends the session's entry to its uuid's list and touches no other list. */
  lemma CropAndAddEntries(d: Dict<seq<Cropped>>, w: Window, s: Session)
    requires Grouped(d)
    ensures CropAndAdd(d, w, s).Ok? ==>
      var r := CropAndAdd(d, w, s).value;
      Grouped(r) && forall u :: Entries(r, u) == Entries(d, u) + KeptOne(w, s, u)
  {
  }

  /**
   * The dict `CropAll` builds holds, under every uuid, what was there before followed by the
   * reference list for that uuid.
   */
  lemma {:induction false} CropAllEntries(d: Dict<seq<Cropped>>, w: Window, sessions: seq<Session>)
    requires Grouped(d)
    ensures CropAll(d, w, sessions).Ok? ==>
      var r := CropAll(d, w, sessions).value;
      Grouped(r) && forall u :: Entries(r, u) == Entries(d, u) + Kept(w, sessions, u)
    decreases |sessions|
  {
    if sessions != [] {
      var init := sessions[..|sessions| - 1];
      CropAllEntries(d, w, init);
      if CropAll(d, w, init).Ok? {
        CropAndAddEntries(CropAll(d, w, init).value, w, sessions[|sessions| - 1]);
      }
    }
  }

  /** `crop_and_add` raises exactly when an admitted session has no leave time. */
  lemma {:induction false} CropAllFails(d: Dict<seq<Cropped>>, w: Window, sessions: seq<Session>)
    ensures CropAll(d, w, sessions).Err? <==>
      exists i | 0 <= i < |sessions| :: Admitted(w, sessions[i].uuid) && sessions[i].to.None?
    decreases |sessions|
  {
    if sessions != [] {
      var init := sessions[..|sessions| - 1];
      CropAllFails(d, w, init);
      if CropAll(d, w, init).Err? {
        var i :| 0 <= i < |init| && Admitted(w, init[i].uuid) && init[i].to.None?;
        assert sessions[i] == init[i];
      } else {
        forall i | 0 <= i < |sessions| - 1 && Admitted(w, sessions[i].uuid)
          ensures sessions[i].to.Some?
        {
          assert sessions[i] == init[i];
        }
      }
    }
  }

  /** The reference entries lie in the window and are filed under their own admitted uuid. */
  lemma {:induction false} KeptInWindow(w: Window, sessions: seq<Session>, uuid: string)
    ensures forall e | e in Kept(w, sessions, uuid) :: InWindow(w, uuid, e)
    decreases |sessions|
  {
    if sessions != [] {
      KeptInWindow(w, sessions[..|sessions| - 1], uuid);
    }
  }

  /** A session whose crop is non-empty is kept, under its uuid, with the cropped bounds. */
  lemma {:induction false} KeptComplete(w: Window, sessions: seq<Session>, i: nat)
    requires i < |sessions|
    requires Admitted(w, sessions[i].uuid) && sessions[i].to.Some?
    requires CropFrom(w, sessions[i].from) < CropTo(w, sessions[i].to.value)
    ensures Cropped(sessions[i].uuid, CropFrom(w, sessions[i].from), CropTo(w, sessions[i].to.value), sessions[i].name)
      in Kept(w, sessions, sessions[i].uuid)
    decreases |sessions|
  {
    if i < |sessions| - 1 {
      KeptComplete(w, sessions[..|sessions| - 1], i);
    }
  }

  /** Players still online are cut at `t_end`. */
  lemma {:induction false} OnlineCroppedAtEnd(w: Window, online: Dict<Login>, names: seq<string>, uuid: string)
    requires forall n | n in names :: n in online.values
    ensures forall e | e in Kept(w, OnlineSessions(online, names, w.end), uuid) :: e.to == w.end
    decreases |names|
  {
    if names != [] {
      var init := names[..|names| - 1];
      OnlineCroppedAtEnd(w, online, init, uuid);
      assert OnlineSessions(online, names, w.end)[..|names| - 1] == OnlineSessions(online, init, w.end);
    }
  }

  /** Sessions of players still online always have a leave time, so they never raise. */
  lemma OnlineNeverFails(d: Dict<seq<Cropped>>, w: Window, times: seq<Session>, online: Dict<Login>)
    requires online.Valid()
    requires CropAll(d, w, times).Ok?
    ensures CropAll(d, w, times + OnlineSessions(online, online.keys, w.end)).Ok?
  {
    var all := times + OnlineSessions(online, online.keys, w.end);
    CropAllFails(d, w, times);
    CropAllFails(d, w, all);
    forall i | 0 <= i < |all| && Admitted(w, all[i].uuid) ensures all[i].to.Some? {
      if i < |times| {
        assert all[i] == times[i];
      }
    }
  }

  /** `crop_and_add` over two lists in a row: over the second, starting from the first's result. */
  lemma {:induction false} CropAllAppend(d: Dict<seq<Cropped>>, w: Window, a: seq<Session>, b: seq<Session>)
    ensures CropAll(d, w, a + b) ==
      match CropAll(d, w, a)
      case Err(e) => Err(e)
      case Ok(d') => CropAll(d', w, b)
    decreases |b|
  {
    if b == [] {
      assert a + b == a;
    } else {
      CropAllAppend(d, w, a, b[..|b| - 1]);
      assert (a + b)[..|a + b| - 1] == a + b[..|b| - 1];
    }
  }

  /** The reference list of a concatenation is the concatenation of the reference lists. */
  lemma {:induction false} KeptAppend(w: Window, a: seq<Session>, b: seq<Session>, uuid: string)
    ensures Kept(w, a + b, uuid) == Kept(w, a, uuid) + Kept(w, b, uuid)
    decreases |b|
  {
    if b == [] {
      assert a + b == a;
    } else {
      KeptAppend(w, a, b[..|b| - 1], uuid);
      assert (a + b)[..|a + b| - 1] == a + b[..|b| - 1];
    }
  }

  // ---------------------------------------------------------------------------------------
  // The two loops of `collect_user_sessions`

  /**
   * `crop_and_add` over the collected sessions, then over the players still online (in the
   * table's order), each taken from its join time up to `t_end`.
   */
  function CropCollected(w: Window, times: seq<Session>, online: Dict<Login>): Result<Dict<seq<Cropped>>, CropError>
    requires online.Valid()
  {
    CropAll(Empty(), w, times + OnlineSessions(online, online.keys, w.end))
  }

  /** The first loop of `collect_user_sessions`: `crop_and_add` on each session in turn. */
  method CropSessions(d: Dict<seq<Cropped>>, w: Window, sessions: seq<Session>) returns (r: Result<Dict<seq<Cropped>>, CropError>)
    ensures r == CropAll(d, w, sessions)
  {
    var acc := d;
    var i := 0;
    while i < |sessions|
      invariant 0 <= i <= |sessions|
      invariant CropAll(d, w, sessions[..i]) == Ok(acc)
    {
      assert sessions[..i + 1][..i] == sessions[..i];
      var step := CropAndAdd(acc, w, sessions[i]);
      if step.Err? {
        CropAllAppend(d, w, sessions[..i + 1], sessions[i + 1..]);
        assert sessions[..i + 1] + sessions[i + 1..] == sessions;
        return Err(step.error);
      }
      acc := step.value;
      i := i + 1;
    }
    assert sessions[..i] == sessions;
    return Ok(acc);
  }

  /**
   * The second loop of `collect_user_sessions`: `crop_and_add` on each player still online,
   * in the table's order, from the join time up to `t_end`. It never raises.
   */
  method CropOnline(d: Dict<seq<Cropped>>, w: Window, online: Dict<Login>) returns (r: Dict<seq<Cropped>>)
    requires online.Valid()
    ensures CropAll(d, w, OnlineSessions(online, online.keys, w.end)) == Ok(r)
  {
    var names := online.keys;
    r := d;
    var j := 0;
    while j < |names|
      invariant 0 <= j <= |names|
      invariant CropAll(d, w, OnlineSessions(online, names[..j], w.end)) == Ok(r)
    {
      var login := online.values[names[j]];
      var s := Session(login.uuid, login.joinTime, Some(w.end), names[j]);
      OnlineStep(d, w, online, names, j);
      CropAndAddLeft(r, w, s);
      r := CropAndAdd(r, w, s).value;
      j := j + 1;
    }
    assert names[..j] == names;
  }

  /** One more player still online: one more `crop_and_add`, on its session up to `t_end`. */
  lemma OnlineStep(d: Dict<seq<Cropped>>, w: Window, online: Dict<Login>, names: seq<string>, j: nat)
    requires j < |names| && forall n | n in names :: n in online.values
    ensures var login := online.values[names[j]];
      var s := Session(login.uuid, login.joinTime, Some(w.end), names[j]);
      CropAll(d, w, OnlineSessions(online, names[..j + 1], w.end)) ==
        match CropAll(d, w, OnlineSessions(online, names[..j], w.end))
        case Err(e) => Err(e)
        case Ok(d') => CropAndAdd(d', w, s)
  {
    assert names[..j + 1][..j] == names[..j];
    var before := OnlineSessions(online, names[..j], w.end);
    assert (before + [OnlineSessions(online, names[..j + 1], w.end)[j]])[..|before|] == before;
  }

  /** The two loops of `collect_user_sessions` that fill `user_sessions`. */
  method CropEach(w: Window, times: seq<Session>, online: Dict<Login>) returns (r: Result<Dict<seq<Cropped>>, CropError>)
    requires online.Valid()
    ensures r == CropCollected(w, times, online)
  {
    CropAllAppend(Empty(), w, times, OnlineSessions(online, online.keys, w.end));
    r := CropSessions(Empty(), w, times);
    if r.Ok? {
      var d := CropOnline(r.value, w, online);
      r := Ok(d);
    }
  }

  /**
   * What `collect_user_sessions` stores under each uuid: the reference list of the collected
   * sessions followed by that of the players still online, every entry inside the window.
   */
  lemma CropCollectedEntries(w: Window, times: seq<Session>, online: Dict<Login>)
    requires online.Valid()
    ensures CropCollected(w, times, online).Ok? ==>
      var d := CropCollected(w, times, online).value;
      && Grouped(d)
      && forall u :: Entries(d, u) == Kept(w, times, u) + Kept(w, OnlineSessions(online, online.keys, w.end), u)
                  && forall e | e in Entries(d, u) :: InWindow(w, u, e)
  {
    var all := times + OnlineSessions(online, online.keys, w.end);
    CropAllEntries(Empty(), w, all);
    forall u ensures Kept(w, all, u) == Kept(w, times, u) + Kept(w, OnlineSessions(online, online.keys, w.end), u)
                  && forall e | e in Kept(w, all, u) :: InWindow(w, u, e) {
      KeptAppend(w, times, OnlineSessions(online, online.keys, w.end), u);
      KeptInWindow(w, all, u);
    }
  }

  /** `collect_user_sessions` raises exactly when an admitted collected session has no leave time. */
  lemma CropCollectedFails(w: Window, times: seq<Session>, online: Dict<Login>)
    requires online.Valid()
    ensures CropCollected(w, times, online).Err? <==>
      exists i | 0 <= i < |times| :: Admitted(w, times[i].uuid) && times[i].to.None?
  {
    CropAllFails(Empty(), w, times);
    if CropAll(Empty(), w, times).Ok? {
      OnlineNeverFails(Empty(), w, times, online);
    } else {
      CropAllAppend(Empty(), w, times, OnlineSessions(online, online.keys, w.end));
    }
  }
}
