/**
 * Class `LogDirectory` of mcserverstats/logalyzer.py: the `LogFile`s of a directory chained in
 * log-name order and ending in `latest`, and the queries that read a range of that chain.
 * Listing the directory and reading a file are parameters: the log names found, and a function
 * from a name to the file's `LogText`. Local-time conversion of date strings is the function
 * `toEpoch`, and the date of the newest log's modification time is the string `latestDate`.
 *
 * The queries are specified by functions of the chain's texts: `IntervalPositions` says which
 * files `read_interval_iter` yields, `CollectSpec` what `collect_data` returns and
 * `UserSessionsSpec` what `collect_user_sessions` returns.
 */
module LogDirectories {
  import opened Wrappers
  import opened Dicts
  import opened TimeUtils
  import opened Sessions
  import opened LogNames
  import opened LogFiles
  import opened SessionCrops

  datatype CollectError =
    | BadName(nameError: LogNameError)           // a bound is not a dash-separated list of integers
    | ReadFailed(convertError: ConvertError)  // raised while converting a file of the range
    | LastEventMissing                        // `None < int`: the range's last file has no timestamp
    | CropFailed(cropError: CropError)        // raised by `crop_and_add`

  // ---------------------------------------------------------------------------------------
  // Keys and positions

  /** `map(split_for_compare, names)`, raising at the first name that is not a key. */
  function SplitAll(names: seq<string>): (r: Result<seq<seq<int>>, LogNameError>)
    ensures r.Ok? <==> forall i | 0 <= i < |names| :: SplitForCompare(names[i]).Ok?
    ensures r.Ok? ==> |r.value| == |names| && forall i | 0 <= i < |names| :: SplitForCompare(names[i]) == Ok(r.value[i])
    decreases |names|
  {
    if names == [] then Ok([])
    else
      match SplitAll(names[..|names| - 1])
      case Err(e) => Err(e)
      case Ok(keys) =>
        match SplitForCompare(names[|names| - 1])
        case Err(e) => Err(e)
        case Ok(k) => Ok(keys + [k])
  }

  /** `join_from_compare` of every key, raising at the first that is not a 4-tuple. */
  function JoinAll(keys: seq<seq<int>>): (r: Result<seq<string>, LogNameError>)
    ensures r.Ok? <==> forall i | 0 <= i < |keys| :: |keys[i]| == 4
    ensures r.Ok? ==> |r.value| == |keys| && forall i | 0 <= i < |keys| :: JoinFromCompare(keys[i]) == Ok(r.value[i])
    decreases |keys|
  {
    if keys == [] then Ok([])
    else
      match JoinAll(keys[..|keys| - 1])
      case Err(e) => Err(e)
      case Ok(names) =>
        match JoinFromCompare(keys[|keys| - 1])
        case Err(e) => Err(e)
        case Ok(n) => Ok(names + [n])
  }

  /** The contents of the named files, in order. */
  function TextsOf(names: seq<string>, textOf: string -> LogText): seq<LogText>
  {
    seq(|names|, i requires 0 <= i < |names| => textOf(names[i]))
  }

  /** Where the last occurrence of `k` is in `keys`, or -1: `log_files[k]` is the last file of that key. */
  function LastIndex(keys: seq<seq<int>>, k: seq<int>): (p: int)
    ensures k !in keys ==> p == -1
    ensures k in keys ==> 0 <= p < |keys| && keys[p] == k && forall j | p < j < |keys| :: keys[j] != k
    decreases |keys|
  {
    if keys == [] then -1
    else if keys[|keys| - 1] == k then |keys| - 1
    else LastIndex(keys[..|keys| - 1], k)
  }

  lemma LastIndexSnoc(keys: seq<seq<int>>, x: seq<int>)
    ensures forall k :: LastIndex(keys + [x], k) == if k == x then |keys| else LastIndex(keys, k)
  {
    assert (keys + [x])[..|keys|] == keys;
  }

  /** The chain positions of the files of the keys `ks`. */
  function KeyPositions(keys: seq<seq<int>>, ks: seq<seq<int>>): (ps: seq<nat>)
    requires forall k | k in ks :: k in keys
    ensures |ps| == |ks| && forall i | 0 <= i < |ks| :: ps[i] == LastIndex(keys, ks[i]) < |keys|
  {
    seq(|ks|, i requires 0 <= i < |ks| => assert ks[i] in ks; LastIndex(keys, ks[i]) as nat)
  }

  /** The keys `iter_log_name_tuples_between` keeps are keys of the directory. */
  lemma BetweenMembers(keys: seq<seq<int>>, fromLog: Option<string>, toLog: Option<string>, inclusiveTo: bool)
    ensures IterLogNameTuplesBetween(keys, fromLog, toLog, inclusiveTo).Ok? ==>
      forall k | k in IterLogNameTuplesBetween(keys, fromLog, toLog, inclusiveTo).value :: k in keys
  {
    if ParseBound(fromLog).Ok? && ParseBound(toLog).Ok? {
      FilterDayRangeMembers(keys, ParseBound(fromLog).value, ParseBound(toLog).value, inclusiveTo);
    }
  }

  /** The number of files read after reading those at positions `ps`, when `n` were read before. */
  function Furthest(n: nat, ps: seq<nat>): (m: nat)
    ensures n <= m && forall i | 0 <= i < |ps| :: ps[i] < m
    ensures m == n || exists i | 0 <= i < |ps| :: m == ps[i] + 1
    decreases |ps|
  {
    if ps == [] then n
    else
      var m := Furthest(n, ps[..|ps| - 1]);
      var p := ps[|ps| - 1];
      assert forall i | 0 <= i < |ps| - 1 :: ps[..|ps| - 1][i] == ps[i];
      if m < p + 1 then p + 1 else m
  }

  lemma FurthestSnoc(n: nat, ps: seq<nat>, i: nat)
    requires i < |ps|
    ensures Furthest(n, ps[..i + 1]) == if Furthest(n, ps[..i]) < ps[i] + 1 then ps[i] + 1 else Furthest(n, ps[..i])
  {
    assert ps[..i + 1][..i] == ps[..i];
  }

  /** Reading the last position of the chain makes the whole chain read. */
  lemma {:induction false} FurthestToEnd(n: nat, ps: seq<nat>, last: nat)
    requires n <= last + 1 && forall i | 0 <= i < |ps| :: ps[i] <= last
    ensures Furthest(n, ps + [last]) == last + 1
  {
    assert (ps + [last])[..|ps|] == ps;
    if Furthest(n, ps) != n {
      var i :| 0 <= i < |ps| && Furthest(n, ps) == ps[i] + 1;
    }
  }

  // ---------------------------------------------------------------------------------------
  // The queries as functions of the chain

  /** The chain positions of the keys `iter_log_name_tuples_between` keeps, in order. */
  function InRange(keys: seq<seq<int>>, fromLog: Option<string>, toLog: Option<string>, inclusiveTo: bool)
    : (r: Result<seq<nat>, CollectError>)
    ensures r.Ok? ==> forall i | 0 <= i < |r.value| :: r.value[i] < |keys|
  {
    match IterLogNameTuplesBetween(keys, fromLog, toLog, inclusiveTo)
    case Err(n) => Err(BadName(n))
    case Ok(ks) =>
      BetweenMembers(keys, fromLog, toLog, inclusiveTo);
      Ok(KeyPositions(keys, ks))
  }

  /**
   * Whether `latest` follows the files at positions `ps`: always without a `to_log` or without
   * such files, and otherwise when the last of them has its last event before the start of
   * `to_log`; a missing last event cannot be compared.
   */
  function TakesLatest(states: seq<FileState>, ps: seq<nat>, toLog: Option<string>, toEpoch: string -> int)
    : Result<bool, CollectError>
    requires forall i | 0 <= i < |ps| :: ps[i] < |states|
  {
    if toLog.None? || toLog.value == [] || ps == [] then Ok(true)
    else
      match states[ps[|ps| - 1]].lastEvent
      case None => Err(LastEventMissing)
      case Some(t) => Ok(t < DateStrToEpoch(toLog, MIDNIGHT, toEpoch).value)
  }

  /**
   * What `read_interval_iter` yields, as positions in the chain, `|keys|` being `latest`: the
   * files of the keys in range, then `latest` when `TakesLatest`. Reading any file converts
   * the chain up to it, which fails exactly when converting the whole chain fails.
   */
  function IntervalPositions(keys: seq<seq<int>>, texts: seq<LogText>, fromLog: Option<string>, toLog: Option<string>,
                             inclusiveTo: bool, toEpoch: string -> int): (r: Result<seq<nat>, CollectError>)
    requires |texts| == |keys| + 1
    ensures r.Ok? ==> ConvertChain(texts).Ok? && r.value != [] && forall i | 0 <= i < |r.value| :: r.value[i] < |texts|
  {
    match InRange(keys, fromLog, toLog, inclusiveTo)
    case Err(e) => Err(e)
    case Ok(ps) =>
      match ConvertChain(texts)
      case Err(c) => Err(ReadFailed(c))
      case Ok(states) =>
        match TakesLatest(states, ps, toLog, toEpoch)
        case Err(e) => Err(e)
        case Ok(t) => Ok(if t then ps + [|keys|] else ps)
  }

  /** `IntervalPositions` case by case. */
  lemma IntervalCases(keys: seq<seq<int>>, texts: seq<LogText>, fromLog: Option<string>, toLog: Option<string>,
                      inclusiveTo: bool, toEpoch: string -> int)
    requires |texts| == |keys| + 1
    ensures InRange(keys, fromLog, toLog, inclusiveTo).Err? ==>
      IntervalPositions(keys, texts, fromLog, toLog, inclusiveTo, toEpoch) == Err(InRange(keys, fromLog, toLog, inclusiveTo).error)
    ensures InRange(keys, fromLog, toLog, inclusiveTo).Ok? && ConvertChain(texts).Err? ==>
      IntervalPositions(keys, texts, fromLog, toLog, inclusiveTo, toEpoch) == Err(ReadFailed(ConvertChain(texts).error))
    ensures InRange(keys, fromLog, toLog, inclusiveTo).Ok? && ConvertChain(texts).Ok? ==>
      var ps := InRange(keys, fromLog, toLog, inclusiveTo).value;
      match TakesLatest(ConvertChain(texts).value, ps, toLog, toEpoch)
      case Err(e) => IntervalPositions(keys, texts, fromLog, toLog, inclusiveTo, toEpoch) == Err(e)
      case Ok(t) => IntervalPositions(keys, texts, fromLog, toLog, inclusiveTo, toEpoch) == Ok(if t then ps + [|keys|] else ps)
  {
  }

  /** `times.extend(log_file.times)` over the files at positions `ps`. */
  function TimesAt(states: seq<FileState>, ps: seq<nat>): seq<Session>
    requires forall i | 0 <= i < |ps| :: ps[i] < |states|
    decreases |ps|
  {
    if ps == [] then []
    else TimesAt(states, ps[..|ps| - 1]) + states[ps[|ps| - 1]].ledger.times
  }

  /**
   * What `collect_data` returns once the files at positions `ps` are read: their sessions in
   * chain order, and the `online` of the shared table. The table holds the state of the
   * furthest file ever read, so when files past the range were read before the call
   * (`readBefore` files were), it is not the range's own.
   */
  function Collected(states: seq<FileState>, ps: seq<nat>, readBefore: nat): (seq<Session>, Dict<Login>)
    requires ps != [] && readBefore <= |states| && forall i | 0 <= i < |ps| :: ps[i] < |states|
  {
    (TimesAt(states, ps), states[Furthest(readBefore, ps) - 1].ledger.online)
  }

  /** `collect_data`: `date_to_log_day`, then `Collected` over what `read_interval_iter` yields. */
  function CollectSpec(keys: seq<seq<int>>, texts: seq<LogText>, fromDate: Option<string>, toDate: Option<string>,
                       inclusiveTo: bool, toEpoch: string -> int, readBefore: nat)
    : Result<(seq<Session>, Dict<Login>), CollectError>
    requires |texts| == |keys| + 1 && readBefore <= |texts|
  {
    var days := DateToLogDay(fromDate, toDate, inclusiveTo);
    match IntervalPositions(keys, texts, days.0, days.1, days.2, toEpoch)
    case Err(e) => Err(e)
    case Ok(ps) => Ok(Collected(ConvertChain(texts).value, ps, readBefore))
  }

  /** The `online` `collect_data` returns is a well-formed table: one entry per player, each logged in. */
  lemma CollectedOnline(keys: seq<seq<int>>, texts: seq<LogText>, fromDate: Option<string>, toDate: Option<string>,
                        inclusiveTo: bool, toEpoch: string -> int, readBefore: nat)
    requires |texts| == |keys| + 1 && readBefore <= |texts|
    ensures var r := CollectSpec(keys, texts, fromDate, toDate, inclusiveTo, toEpoch, readBefore);
      r.Ok? ==> OnlineInvariant(r.value.1)
  {
    ChainOutcome(texts);
  }

  /** `t_start`: a missing `from_date`, and also one at the falsy epoch `0`, mean minus infinity. */
  function StartBound(fromDate: Option<string>, toEpoch: string -> int): Option<int>
  {
    match DateStrToEpoch(fromDate, MIDNIGHT, toEpoch)
    case None => None
    case Some(t) => if t == 0 then None else Some(t)
  }

  /** `t_end`: the start of `to_date`, or of the newest log's date when `to_date` is missing or empty. */
  function EndBound(toDate: Option<string>, latestDate: string, toEpoch: string -> int): int
  {
    var d := if toDate.Some? && toDate.value != [] then toDate.value else latestDate;
    DateStrToEpoch(Some(d), MIDNIGHT, toEpoch).value
  }

  /** The query window of `collect_user_sessions`. */
  function WindowOf(fromDate: Option<string>, toDate: Option<string>, whitelist: Option<seq<string>>, latestDate: string,
                    toEpoch: string -> int): Window
  {
    Window(whitelist, StartBound(fromDate, toEpoch), EndBound(toDate, latestDate, toEpoch))
  }

  /** `collect_user_sessions`: `CropCollected` over what `collect_data` returns. */
  function UserSessionsSpec(keys: seq<seq<int>>, texts: seq<LogText>, fromDate: Option<string>, toDate: Option<string>,
                            inclusiveTo: bool, whitelist: Option<seq<string>>, latestDate: string,
                            toEpoch: string -> int, readBefore: nat)
    : Result<Dict<seq<Cropped>>, CollectError>
    requires |texts| == |keys| + 1 && readBefore <= |texts|
  {
    var w := WindowOf(fromDate, toDate, whitelist, latestDate, toEpoch);
    CollectedOnline(keys, texts, fromDate, toDate, inclusiveTo, toEpoch, readBefore);
    match CollectSpec(keys, texts, fromDate, toDate, inclusiveTo, toEpoch, readBefore)
    case Err(e) => Err(e)
    case Ok(data) =>
      match CropCollected(w, data.0, data.1)
      case Err(e) => Err(CropFailed(e))
      case Ok(d) => Ok(d)
  }

  /** `UserSessionsSpec` from `CollectSpec`. */
  lemma UserSessionsCases(keys: seq<seq<int>>, texts: seq<LogText>, fromDate: Option<string>, toDate: Option<string>,
                          inclusiveTo: bool, whitelist: Option<seq<string>>, latestDate: string,
                          toEpoch: string -> int, readBefore: nat)
    requires |texts| == |keys| + 1 && readBefore <= |texts|
    ensures var c := CollectSpec(keys, texts, fromDate, toDate, inclusiveTo, toEpoch, readBefore);
      var r := UserSessionsSpec(keys, texts, fromDate, toDate, inclusiveTo, whitelist, latestDate, toEpoch, readBefore);
      && (c.Err? ==> r == Err(c.error))
      && (c.Ok? ==>
            && c.value.1.Valid()
            && var cropped := CropCollected(WindowOf(fromDate, toDate, whitelist, latestDate, toEpoch), c.value.0, c.value.1);
            && (cropped.Err? ==> r == Err(CropFailed(cropped.error)))
            && (cropped.Ok? ==> r == Ok(cropped.value)))
  {
    CollectedOnline(keys, texts, fromDate, toDate, inclusiveTo, toEpoch, readBefore);
  }

  // ---------------------------------------------------------------------------------------
  // The directory object

  /** A valid chain of which no file is read yet. */
  ghost predicate Unopened(f: LogFile)
    reads f.repr, f.root
  {
    f.Valid() && f.ReadCount() == 0
  }

  /** `log_files` after the keys `done`: each key maps to the file of its last occurrence. */
  ghost predicate Recorded(files: map<seq<int>, LogFile>, done: seq<seq<int>>)
  {
    && (forall k :: k in files <==> k in done)
    && (forall k | k in files :: |files[k].texts| == LastIndex(done, k) + 1)
  }

  /** Recording the file of one more key keeps `log_files` a map to the last occurrences. */
  lemma RecordStep(files: map<seq<int>, LogFile>, done: seq<seq<int>>, key: seq<int>, f: LogFile)
    requires Recorded(files, done) && |f.texts| == |done| + 1
    ensures Recorded(files[key := f], done + [key])
  {
    LastIndexSnoc(done, key);
  }

  /** `LogFile(logs_dir, log_name, prev_log_file)` at the end of an unread chain. */
  method Append(prev: LogFile?, content: LogText) returns (f: LogFile)
    requires prev != null ==> Unopened(prev)
    ensures Unopened(f) && f.texts == (if prev == null then [] else prev.texts) + [content]
    ensures f.repr == (if prev == null then {} else prev.repr) + {f}
  {
    f := new LogFile(prev, content);
  }

  /**
   * The loop of `LogDirectory.__init__` over the sorted keys and their names: one unread
   * `LogFile` per key, each linked to the one before, and `latest` after them. A key that
   * occurs twice maps to the later file.
   */
  method Chain(keys: seq<seq<int>>, names: seq<string>, textOf: string -> LogText, latestText: LogText)
    returns (files: map<seq<int>, LogFile>, last: LogFile)
    requires |names| == |keys|
    ensures Unopened(last) && last.texts == TextsOf(names, textOf) + [latestText]
    ensures Recorded(files, keys) && forall k | k in files :: files[k] in last.repr
  {
    var prev: LogFile? := null;
    files := map[];
    var i := 0;
    while i < |keys|
      invariant 0 <= i <= |keys|
      invariant prev == null <==> i == 0
      invariant prev == null ==> files == map[]
      invariant prev != null ==>
        && Unopened(prev) && prev.texts == TextsOf(names, textOf)[..i]
        && forall k | k in files :: files[k] in prev.repr
      invariant Recorded(files, keys[..i])
    {
      var f := Append(prev, textOf(names[i]));
      RecordStep(files, keys[..i], keys[i], f);
      files := files[keys[i] := f];
      prev := f;
      assert TextsOf(names, textOf)[..i + 1] == TextsOf(names, textOf)[..i] + [textOf(names[i])];
      assert keys[..i + 1] == keys[..i] + [keys[i]];
      i := i + 1;
    }
    assert keys[..i] == keys && TextsOf(names, textOf)[..i] == TextsOf(names, textOf);
    last := Append(prev, latestText);
  }

  class LogDirectory {
    /** `sorted_log_name_tuples` */
    const sortedKeys: seq<seq<int>>
    /** `log_files` without its `'latest'` entry. */
    const logFiles: map<seq<int>, LogFile>
    /** `log_files['latest']`, after every named file. */
    const latest: LogFile

    /** `log_files[k]` is the file of the last occurrence of `k`, and `latest` follows them all. */
    ghost predicate Indexed()
    {
      && |latest.texts| == |sortedKeys| + 1
      && (forall k | k in sortedKeys :: k in logFiles)
      && (forall k | k in logFiles :: logFiles[k] in latest.repr && |logFiles[k].texts| == LastIndex(sortedKeys, k) + 1)
    }

    /** The chain is valid and indexed, and when `latest` itself is read the shared table holds its `online`. */
    ghost predicate Valid()
      reads latest.repr, latest.root
    {
      && latest.Valid()
      && Indexed()
      && (latest.beenRead ==> latest.converted.Some? && latest.root.contents == latest.converted.value.ledger.online)
    }

    /** The files `ys` are the files of the chain at the positions `ps`. */
    ghost predicate AtPositions(ys: seq<LogFile>, ps: seq<nat>)
    {
      |ys| == |ps| && forall j | 0 <= j < |ps| :: ys[j] in latest.repr && |ys[j].texts| == ps[j] + 1
    }

    lemma AtPositionsLatest(ys: seq<LogFile>, ps: seq<nat>)
      requires Indexed() && latest.Linked() && AtPositions(ys, ps)
      ensures AtPositions(ys + [latest], ps + [|sortedKeys|])
    {
    }

    /** The files of the keys `ks`, in order. */
    function FilesOf(ks: seq<seq<int>>): (ys: seq<LogFile>)
      requires Indexed() && forall k | k in ks :: k in sortedKeys
      ensures AtPositions(ys, KeyPositions(sortedKeys, ks))
    {
      seq(|ks|, j requires 0 <= j < |ks| => assert ks[j] in ks; logFiles[ks[j]])
    }

    /** `LogDirectory.__init__` once the names are split, sorted and re-joined. */
    constructor (keys: seq<seq<int>>, names: seq<string>, textOf: string -> LogText, latestText: LogText)
      requires |names| == |keys|
      ensures sortedKeys == keys
      ensures Valid() && Unopened(latest)
      ensures latest.texts == TextsOf(names, textOf) + [latestText]
      ensures logFiles.Keys == set k | k in keys
    {
      var files, last := Chain(keys, names, textOf, latestText);
      sortedKeys := keys;
      logFiles := files;
      latest := last;
      new;
    }

    /**
     * `LogDirectory(logs_dir)` over the log names found (without `.log.gz`): split, sorted, and
     * chained under their re-joined names. A name that does not split into integers, or a key
     * that is not a 4-tuple, raises.
     */
    static method Create(names: seq<string>, textOf: string -> LogText, latestText: LogText)
      returns (r: Result<LogDirectory, LogNameError>)
      ensures r.Err? <==> SplitAll(names).Err? || JoinAll(Sort(SplitAll(names).value)).Err?
      ensures r.Ok? ==>
        var keys := Sort(SplitAll(names).value);
        && r.value.Valid() && Unopened(r.value.latest)
        && r.value.sortedKeys == keys && Sorted(keys) && multiset(keys) == multiset(SplitAll(names).value)
        && r.value.latest.texts == TextsOf(JoinAll(keys).value, textOf) + [latestText]
    {
      var split := SplitAll(names);
      if split.Err? {
        return Err(split.error);
      }
      var keys := Sort(split.value);
      var joined := JoinAll(keys);
      if joined.Err? {
        return Err(joined.error);
      }
      var d := new LogDirectory(keys, joined.value, textOf, latestText);
      return Ok(d);
    }

    // -------------------------------------------------------------------------------------
    // Reading

    /**
     * `log_file.read_log()` for a file of the chain: on success the directory stays valid, the
     * file and every file read before are read, and the read part reaches at least the file.
     * It fails exactly when converting the chain fails, with that error.
     */
    method ReadFile(f: LogFile) returns (err: Option<ConvertError>)
      requires Valid() && f in latest.repr
      modifies latest.repr, latest.root
      ensures err.Some? ==> ConvertChain(latest.texts) == Err(err.value)
      ensures err.None? ==>
        && Valid() && f.beenRead && ConvertChain(latest.texts).Ok?
        && latest.ReadCount() == (if old(latest.ReadCount()) < |f.texts| then |f.texts| else old(latest.ReadCount()))
    {
      latest.Nested(f);
      latest.ValidMember(f);
      label before:
      err := f.ReadLog();
      if err.Some? {
        ChainPrefix(latest.texts, |f.texts|);
        return;
      }
      latest.LiftRead@before(f);
      latest.ReadCountAfter@before(f);
      latest.MemberConverts(f);
      if f != latest && old(latest.beenRead) {
        latest.ReadPrefix@before(f);
      }
    }

    /**
     * The `for` loop of `read_interval_iter`: reads the files of the keys `ks` in order. The
     * files are those at the keys' positions, and the read part now reaches the furthest of them.
     */
    method ReadEach(ks: seq<seq<int>>) returns (ys: seq<LogFile>, err: Option<ConvertError>)
      requires Valid() && forall k | k in ks :: k in sortedKeys
      modifies latest.repr, latest.root
      ensures err.Some? ==> ConvertChain(latest.texts) == Err(err.value)
      ensures err.None? ==>
        && Valid() && ys == FilesOf(ks)
        && latest.ReadCount() == Furthest(old(latest.ReadCount()), KeyPositions(sortedKeys, ks))
    {
      ghost var ps := KeyPositions(sortedKeys, ks);
      ghost var n0 := latest.ReadCount();
      ys := [];
      var i := 0;
      while i < |ks|
        invariant 0 <= i <= |ks| && Valid()
        invariant latest.ReadCount() == Furthest(n0, ps[..i])
      {
        var f := logFiles[ks[i]];
        err := ReadFile(f);
        if err.Some? {
          return;
        }
        FurthestSnoc(n0, ps, i);
        i := i + 1;
      }
      assert ps[..i] == ps;
      ys := FilesOf(ks);
      err := None;
    }

    /**
     * The condition of `read_interval_iter` on the last file `ys` ends in: `TakesLatest` on the
     * chain's states, read from the file's `last_event`.
     */
    method DecideLatest(ghost ps: seq<nat>, ys: seq<LogFile>, toLog: Option<string>, toEpoch: string -> int)
      returns (takes: Result<bool, CollectError>)
      requires Valid() && AtPositions(ys, ps) && forall i | 0 <= i < |ps| :: ps[i] < |sortedKeys|
      requires ys != [] ==> ys[|ys| - 1].beenRead
      ensures ConvertChain(latest.texts).Ok? ==> takes == TakesLatest(ConvertChain(latest.texts).value, ps, toLog, toEpoch)
      ensures ConvertChain(latest.texts).Err? ==> ys == [] && takes == Ok(true)
    {
      if ys == [] || toLog.None? || toLog.value == [] {
        if ys != [] {
          latest.MemberConverts(ys[|ys| - 1]);
        }
        return Ok(true);
      }
      var prev := ys[|ys| - 1];
      latest.MemberConverts(prev);
      ghost var states := ConvertChain(latest.texts).value;
      assert prev.lastEvent == states[ps[|ps| - 1]].lastEvent;
      if prev.lastEvent.None? {
        return Err(LastEventMissing);
      }
      return Ok(prev.lastEvent.value < DateStrToEpoch(toLog, MIDNIGHT, toEpoch).value);
    }

    /**
     * The end of `read_interval_iter`, after the files `ys` at positions `ps`: decides whether
     * `latest` follows them, as `TakesLatest` does, and reads and yields it if so.
     */
    method ReadTail(ghost n0: nat, ghost ps: seq<nat>, ys: seq<LogFile>, toLog: Option<string>, toEpoch: string -> int)
      returns (r: Result<seq<LogFile>, CollectError>)
      requires Valid() && AtPositions(ys, ps) && forall i | 0 <= i < |ps| :: ps[i] < |sortedKeys|
      requires n0 <= |latest.texts| && latest.ReadCount() == Furthest(n0, ps)
      modifies latest.repr, latest.root
      ensures r.Err? ==>
        match ConvertChain(latest.texts)
        case Err(c) => r.error == ReadFailed(c)
        case Ok(states) => TakesLatest(states, ps, toLog, toEpoch) == Err(r.error)
      ensures r.Ok? ==>
        && Valid() && ConvertChain(latest.texts).Ok?
        && var takes := TakesLatest(ConvertChain(latest.texts).value, ps, toLog, toEpoch);
        && takes.Ok?
        && var qs := if takes.value then ps + [|sortedKeys|] else ps;
        && AtPositions(r.value, qs) && latest.ReadCount() == Furthest(n0, qs)
    {
      if ys != [] {
        latest.ReadWithinCount(ys[|ys| - 1]);
      }
      var takes := DecideLatest(ps, ys, toLog, toEpoch);
      if takes.Err? {
        return Err(takes.error);
      }
      if !takes.value {
        return Ok(ys);
      }
      FurthestToEnd(n0, ps, |sortedKeys|);
      AtPositionsLatest(ys, ps);
      var err := ReadFile(latest);
      if err.Some? {
        return Err(ReadFailed(err.value));
      }
      return Ok(ys + [latest]);
    }

    /**
     * `read_interval_iter`: reads and yields the files of the keys in range, then `latest`
     * unless the last of them has an event at or after the start of `to_log`. The files yielded
     * are those at `IntervalPositions`, and the read part of the chain now reaches the furthest
     * of them. An error is the one `IntervalPositions` names.
     */
    method ReadIntervalIter(fromLog: Option<string>, toLog: Option<string>, inclusiveTo: bool, toEpoch: string -> int)
      returns (r: Result<seq<LogFile>, CollectError>)
      requires Valid()
      modifies latest.repr, latest.root
      ensures r.Err? ==> IntervalPositions(sortedKeys, latest.texts, fromLog, toLog, inclusiveTo, toEpoch) == Err(r.error)
      ensures r.Ok? ==>
        && Valid() && IntervalPositions(sortedKeys, latest.texts, fromLog, toLog, inclusiveTo, toEpoch).Ok?
        && var ps := IntervalPositions(sortedKeys, latest.texts, fromLog, toLog, inclusiveTo, toEpoch).value;
        && AtPositions(r.value, ps)
        && latest.ReadCount() == Furthest(old(latest.ReadCount()), ps)
    {
      var between := IterLogNameTuplesBetween(sortedKeys, fromLog, toLog, inclusiveTo);
      if between.Err? {
        return Err(BadName(between.error));
      }
      var ks := between.value;
      BetweenMembers(sortedKeys, fromLog, toLog, inclusiveTo);
      ghost var ps := KeyPositions(sortedKeys, ks);
      assert InRange(sortedKeys, fromLog, toLog, inclusiveTo) == Ok(ps);
      IntervalCases(sortedKeys, latest.texts, fromLog, toLog, inclusiveTo, toEpoch);
      ghost var n0 := latest.ReadCount();
      var ys, err := ReadEach(ks);
      if err.Some? {
        return Err(ReadFailed(err.value));
      }
      r := ReadTail(n0, ps, ys, toLog, toEpoch);
    }

    /**
     * `times.extend(log_file.times)` over read files: the sessions the chain's conversion
     * records at their positions.
     */
    method TimesOf(ghost ps: seq<nat>, ys: seq<LogFile>) returns (times: seq<Session>)
      requires Valid() && ConvertChain(latest.texts).Ok? && AtPositions(ys, ps)
      requires forall i | 0 <= i < |ps| :: ps[i] < latest.ReadCount() <= |latest.texts|
      ensures times == TimesAt(ConvertChain(latest.texts).value, ps)
    {
      ghost var states := ConvertChain(latest.texts).value;
      times := [];
      var i := 0;
      while i < |ys|
        invariant 0 <= i <= |ys|
        invariant times == TimesAt(states, ps[..i])
      {
        latest.ReadWithinCount(ys[i]);
        latest.MemberConverts(ys[i]);
        assert ps[..i + 1][..i] == ps[..i];
        times := times + ys[i].times;
        i := i + 1;
      }
      assert ps[..i] == ps;
    }

    /**
     * `last_log.online if last_log else {}` after the files `ys` were read: the shared table,
     * which holds the `online` of the furthest file ever read.
     */
    method LastOnline(ghost n0: nat, ghost ps: seq<nat>, ys: seq<LogFile>) returns (online: Dict<Login>)
      requires Valid() && ConvertChain(latest.texts).Ok? && AtPositions(ys, ps) && ys != []
      requires latest.ReadCount() == Furthest(n0, ps)
      ensures 0 < Furthest(n0, ps) <= |ConvertChain(latest.texts).value|
      ensures online == ConvertChain(latest.texts).value[Furthest(n0, ps) - 1].ledger.online
    {
      latest.ReadWithinCount(ys[|ys| - 1]);
      latest.MemberConverts(ys[|ys| - 1]);
      latest.TableHoldsLastRead();
      online := if ys != [] then ys[|ys| - 1].online.contents else Empty();
    }

    /** The loop body of `collect_data` over the files `ys` that `read_interval_iter` yielded, and its result. */
    method Gather(ghost n0: nat, ghost ps: seq<nat>, ys: seq<LogFile>) returns (res: (seq<Session>, Dict<Login>))
      requires Valid() && ConvertChain(latest.texts).Ok? && AtPositions(ys, ps) && ys != []
      requires n0 <= |latest.texts| && latest.ReadCount() == Furthest(n0, ps)
      ensures res == Collected(ConvertChain(latest.texts).value, ps, n0)
    {
      var times := TimesOf(ps, ys);
      var online := LastOnline(n0, ps, ys);
      res := (times, online);
    }

    /**
     * `collect_data`: the sessions of the files `read_interval_iter` yields for the dates cut
     * to days, and the `online` of the last of them, which is the shared table.
     */
    method CollectData(fromDate: Option<string>, toDate: Option<string>, inclusiveTo: bool, toEpoch: string -> int)
      returns (r: Result<(seq<Session>, Dict<Login>), CollectError>)
      requires Valid()
      modifies latest.repr, latest.root
      ensures r == CollectSpec(sortedKeys, latest.texts, fromDate, toDate, inclusiveTo, toEpoch, old(latest.ReadCount()))
      ensures r.Ok? ==> Valid()
    {
      var days := DateToLogDay(fromDate, toDate, inclusiveTo);
      ghost var n0 := latest.ReadCount();
      var files := ReadIntervalIter(days.0, days.1, days.2, toEpoch);
      if files.Err? {
        return Err(files.error);
      }
      ghost var ps := IntervalPositions(sortedKeys, latest.texts, days.0, days.1, days.2, toEpoch).value;
      var res := Gather(n0, ps, files.value);
      return Ok(res);
    }

    /**
     * `collect_user_sessions`: the window from the dates (the newest log's date standing in
     * for a missing end), `collect_data` for the dates, and the two `crop_and_add` loops.
     */
    method CollectUserSessions(fromDate: Option<string>, toDate: Option<string>, inclusiveTo: bool,
                               whitelist: Option<seq<string>>, latestDate: string, toEpoch: string -> int)
      returns (r: Result<Dict<seq<Cropped>>, CollectError>)
      requires Valid()
      modifies latest.repr, latest.root
      ensures r == UserSessionsSpec(sortedKeys, latest.texts, fromDate, toDate, inclusiveTo, whitelist, latestDate,
                                    toEpoch, old(latest.ReadCount()))
      ensures r.Ok? ==> Valid()
    {
      var w := WindowOf(fromDate, toDate, whitelist, latestDate, toEpoch);
      ghost var n0 := latest.ReadCount();
      UserSessionsCases(sortedKeys, latest.texts, fromDate, toDate, inclusiveTo, whitelist, latestDate, toEpoch, n0);
      var data := CollectData(fromDate, toDate, inclusiveTo, toEpoch);
      if data.Err? {
        return Err(data.error);
      }
      var cropped := CropEach(w, data.value.0, data.value.1);
      if cropped.Err? {
        return Err(CropFailed(cropped.error));
      }
      return Ok(cropped.value);
    }
  }
}
