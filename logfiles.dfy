/**
 * Class `LogFile` of mcserverstats/logalyzer.py with its attributes. A file knows its
 * predecessor; `read_log` converts the predecessor first, and `convert_log` then makes
 * `self.online` the very dict object of the predecessor, so every file of a read chain shares
 * the first file's table: a crash close in a successor empties the predecessor's `online` too.
 * The dict object is class `OnlineTable`; the file's content is its `LogText`.
 */
module LogFiles {
  import opened Wrappers
  import opened Dicts
  import opened Sessions

  /** A dict object holding `name -> [uuid, join_time, login_count]`. */
  class OnlineTable {
    var contents: Dict<Login>

    constructor ()
      ensures contents == Empty()
    {
      contents := Empty();
    }
  }

  class LogFile {
    const prevLog: LogFile?
    const text: LogText
    /** The `{}` that `__init__` stores in `self.online`. */
    const ownTable: OnlineTable
    /** This file and its predecessors. */
    ghost const repr: set<LogFile>
    /** The texts of the predecessors and of this file, first file first. */
    ghost const texts: seq<LogText>
    /** The table every read file of the chain refers to: the first file's own. */
    ghost const root: OnlineTable

    var uuids: map<string, string>
    var beenRead: bool
    var started: Option<bool>
    /** `None` in the source until a stop is seen; only its truth value is ever read. */
    var stopped: bool
    var firstEvent: Option<int>
    var lastEvent: Option<int>
    var online: OnlineTable
    var times: seq<Session>
    /** The state this file's conversion produced, recorded when it was read. */
    ghost var converted: Option<FileState>

    /** `prevLog` links the files of `repr` in order, and no file occurs twice. */
    ghost predicate Linked()
      decreases |texts|
    {
      this in repr &&
      if prevLog == null then repr == {this} && texts == [text] && root == ownTable
      else
        && texts == prevLog.texts + [text]
        && repr == prevLog.repr + {this}
        && prevLog in prevLog.repr && this !in prevLog.repr
        && root == prevLog.root
        && prevLog.Linked()
    }

    /** Not converted yet: at most `peek_start` has run. */
    ghost predicate Unread()
      reads this
    {
      && !beenRead && converted == None
      && times == [] && uuids == map[] && !stopped && lastEvent == None
      && online == ownTable
      && (started.None? ==> firstEvent == None)
      && (started.Some? ==> started == Some(text.boot.Some?) && firstEvent == text.boot)
    }

    /** What the predecessor hands on: its `online` and `last_event` after its own conversion. */
    ghost function Inherited(): Option<Inheritance>
      reads prevLog
    {
      if prevLog == null || prevLog.converted.None? then None else Some(Inherit(prevLog.converted.value))
    }

    /** A file is either unread, or read after its predecessor with attributes equal to its conversion. */
    ghost predicate Consistent()
      reads this, prevLog
    {
      if !beenRead then Unread()
      else
        && converted.Some?
        && (prevLog != null ==> prevLog.beenRead && prevLog.converted.Some?)
        && Convert(Inherited(), text) == Ok(converted.value)
        && uuids == converted.value.uuids
        && times == converted.value.ledger.times
        && stopped == converted.value.stopped
        && firstEvent == converted.value.firstEvent
        && lastEvent == converted.value.lastEvent
        && started == Some(text.boot.Some?)
        && online == root
    }

    /**
     * Every file of the chain is consistent; an unread first file still has its empty `{}`; and
     * when the predecessor is the last read file, the shared table holds its `online`.
     */
    ghost predicate Valid()
      reads repr, root
      decreases |texts|
    {
      && Linked()
      && Consistent()
      && (prevLog == null && !beenRead ==> ownTable.contents == Empty())
      && (prevLog != null ==>
            && prevLog.Valid()
            && (prevLog.beenRead && !beenRead ==>
                  prevLog.converted.Some? && root.contents == prevLog.converted.value.ledger.online))
    }

    /** Every file of the chain is read; unlike `Valid`, this does not depend on the tables. */
    ghost predicate AllRead()
      reads repr
      decreases |texts|
    {
      && Linked()
      && beenRead
      && Consistent()
      && (prevLog != null ==> prevLog.AllRead())
    }

    /** The attributes `convert_log` works on, with the contents of the table `online` refers to. */
    ghost function State(): FileState
      reads this, online
    {
      FileState(uuids, Ledger(online.contents, times), stopped, firstEvent, lastEvent)
    }

    // -------------------------------------------------------------------------------------
    // Construction

    /** `LogFile(logs_dir, log_name, prev_log)`: nothing read, `online` is a fresh `{}`. */
    constructor (prev: LogFile?, content: LogText)
      requires prev != null ==> prev.Linked()
      ensures prevLog == prev && text == content
      ensures fresh(ownTable)
      ensures Linked() && Unread() && started.None? && ownTable.contents == Empty()
      ensures prev != null ==> texts == prev.texts + [content] && repr == prev.repr + {this}
      ensures prev == null || (prev.Valid() && !prev.beenRead) ==> Valid()
    {
      prevLog := prev;
      text := content;
      var table := new OnlineTable();
      ownTable := table;
      repr := if prev == null then {this} else prev.repr + {this};
      texts := if prev == null then [content] else prev.texts + [content];
      root := if prev == null then table else prev.root;
      uuids := map[];
      beenRead := false;
      started := None;
      stopped := false;
      firstEvent := None;
      lastEvent := None;
      online := table;
      times := [];
      converted := None;
      new;
    }

    // -------------------------------------------------------------------------------------
    // Facts about the chain

    lemma {:induction false} ValidReadIsAllRead()
      requires Valid() && beenRead
      ensures AllRead()
      decreases |texts|
    {
      if prevLog != null {
        prevLog.ValidReadIsAllRead();
      }
    }

    lemma {:induction false} AllReadIsValid()
      requires AllRead()
      ensures Valid()
      decreases |texts|
    {
      if prevLog != null {
        prevLog.AllReadIsValid();
      }
    }

    /** A read file holds the last state of `ConvertChain` on the texts up to it. */
    lemma {:induction false} AllReadConverts()
      requires AllRead()
      ensures ConvertChain(texts).Ok? && |ConvertChain(texts).value| == |texts|
      ensures converted == Some(ConvertChain(texts).value[|texts| - 1])
      decreases |texts|
    {
      if prevLog != null {
        prevLog.AllReadConverts();
        assert texts[..|texts| - 1] == prevLog.texts;
      } else {
        assert texts[..|texts| - 1] == [];
      }
    }

    /** When the predecessors are read, a failing conversion of this file fails the chain. */
    lemma ChainFailsWith(e: ConvertError)
      requires Linked()
      requires prevLog != null ==> prevLog.AllRead()
      requires Convert(Inherited(), text) == Err(e)
      ensures ConvertChain(texts) == Err(e)
    {
      if prevLog != null {
        prevLog.AllReadConverts();
        assert texts[..|texts| - 1] == prevLog.texts;
      } else {
        assert texts[..|texts| - 1] == [];
      }
    }

    /** A failing predecessor fails the chain. */
    lemma PrevFails(e: ConvertError)
      requires Linked() && prevLog != null
      requires ConvertChain(prevLog.texts) == Err(e)
      ensures ConvertChain(texts) == Err(e)
    {
      assert texts[..|texts| - 1] == prevLog.texts;
    }

    /** A file of the chain heads a chain of its own: a prefix of this one, with the same table. */
    lemma {:induction false} Nested(f: LogFile)
      requires Linked() && f in repr
      ensures f.Linked() && f.repr <= repr && f.root == root
      ensures |f.texts| <= |texts| && f.texts == texts[..|f.texts|]
      ensures f == this || (|f.texts| < |texts| && this !in f.repr)
      decreases |texts|
    {
      if f != this {
        prevLog.Nested(f);
      }
    }

    /** In a valid chain the read files form a prefix: a read file's predecessors are read. */
    twostate lemma {:induction false} ReadPrefix(f: LogFile)
      requires old(Valid()) && old(beenRead) && f in repr
      ensures old(f.beenRead)
      decreases |texts|
    {
      if f != this {
        prevLog.ReadPrefix(f);
      }
    }

    /**
     * Reading a file `f` of the chain keeps the chain valid: the files after `f` are untouched,
     * and when `f` was read just now they were all unread, with the table holding `f`'s `online`.
     */
    twostate lemma {:induction false} LiftRead(f: LogFile)
      requires old(Valid()) && f in repr
      requires f.Valid() && f.beenRead
      requires forall g | g in repr && g !in f.repr :: unchanged(g)
      requires old(f.beenRead) ==> unchanged(f.repr) && unchanged(root)
      requires !old(f.beenRead) ==> f.converted.Some? && root.contents == f.converted.value.ledger.online
      ensures Valid()
      ensures this != f ==> beenRead == old(beenRead)
      decreases |texts|
    {
      Nested(f);
      if f != this {
        prevLog.LiftRead(f);
        assert unchanged(this);
        if prevLog != f {
          prevLog.Nested(f);
          assert unchanged(prevLog);
        }
        if old(beenRead) {
          ReadPrefix(f);
          assert unchanged(prevLog);
        }
        if !old(f.beenRead) && prevLog != f && old(prevLog.beenRead) {
          prevLog.ReadPrefix(f);
        }
      }
    }

    /** How many files of the chain are read; in a valid chain they are the first ones. */
    ghost function ReadCount(): (n: nat)
      requires Linked()
      reads repr
      ensures n <= |texts|
      decreases |texts|
    {
      if beenRead then |texts| else if prevLog == null then 0 else prevLog.ReadCount()
    }

    /** Reading a file `f` of the chain extends the read part up to `f`, if it did not reach it. */
    twostate lemma {:induction false} ReadCountAfter(f: LogFile)
      requires old(Valid()) && f in repr
      requires f.Valid() && f.beenRead
      requires forall g | g in repr && g !in f.repr :: unchanged(g)
      requires old(f.beenRead) ==> unchanged(f.repr)
      ensures ReadCount() == if old(ReadCount()) < |f.texts| then |f.texts| else old(ReadCount())
      decreases |texts|
    {
      Nested(f);
      if f != this {
        assert unchanged(this);
        if old(beenRead) {
          ReadPrefix(f);
        } else {
          prevLog.ReadCountAfter(f);
        }
      }
    }

    /**
     * The shared table holds the `online` of the last read file: the state converting the chain
     * reaches at position `ReadCount() - 1`, whichever file was asked for.
     */
    lemma {:induction false} TableHoldsLastRead()
      requires Valid() && ReadCount() > 0
      requires beenRead ==> converted.Some? && root.contents == converted.value.ledger.online
      ensures ConvertChain(texts).Ok?
      ensures root.contents == ConvertChain(texts).value[ReadCount() - 1].ledger.online
      decreases |texts|
    {
      if beenRead {
        MemberConverts(this);
      } else if prevLog.beenRead {
        MemberConverts(prevLog);
      } else {
        prevLog.TableHoldsLastRead();
        ChainOutcome(texts);
        ChainOutcome(prevLog.texts);
        assert prevLog.texts[0] == texts[0];
        ChainPrefix(texts, |prevLog.texts|);
        assert texts[..|prevLog.texts|] == prevLog.texts;
      }
    }

    /** Every file of a valid chain heads a valid chain. */
    lemma {:induction false} ValidMember(f: LogFile)
      requires Valid() && f in repr
      ensures f.Valid()
      decreases |texts|
    {
      if f != this {
        prevLog.ValidMember(f);
      }
    }

    /** Every file of a read chain is read. */
    lemma {:induction false} AllReadMember(f: LogFile)
      requires AllRead() && f in repr
      ensures f.beenRead
      decreases |texts|
    {
      if f != this {
        prevLog.AllReadMember(f);
      }
    }

    /** In a valid chain a file is read exactly when it lies within the read part. */
    lemma {:induction false} ReadWithinCount(g: LogFile)
      requires Valid() && g in repr
      ensures g.beenRead <==> |g.texts| <= ReadCount()
      decreases |texts|
    {
      Nested(g);
      if beenRead {
        ValidReadIsAllRead();
        AllReadMember(g);
      } else if g != this {
        prevLog.ReadWithinCount(g);
      }
    }

    /**
     * A read file of a valid chain holds the state that converting the whole chain computes
     * at its position; in particular the whole chain converts.
     */
    lemma MemberConverts(f: LogFile)
      requires Valid() && f in repr && f.beenRead
      ensures ConvertChain(texts).Ok? && 1 <= |f.texts| <= |ConvertChain(texts).value|
      ensures f.converted == Some(ConvertChain(texts).value[|f.texts| - 1])
      ensures f.times == ConvertChain(texts).value[|f.texts| - 1].ledger.times
      ensures f.lastEvent == ConvertChain(texts).value[|f.texts| - 1].lastEvent
      ensures f.online == root
    {
      Nested(f);
      ValidMember(f);
      f.ValidReadIsAllRead();
      f.AllReadConverts();
      ChainOutcome(f.texts);
      ChainOutcome(texts);
      assert f.texts[0] == texts[0];
      ChainPrefix(texts, |f.texts|);
    }

    // -------------------------------------------------------------------------------------
    // The actions

    /** `found_uuid` */
    method FoundUuid(name: string, uuid: string)
      modifies this`uuids
      ensures uuids == old(uuids)[name := uuid]
    {
      uuids := uuids[name := uuid];
    }

    /** `found_join`, on the dict object `online` refers to. */
    method FoundJoin(seconds: int, name: string)
      modifies online`contents
      ensures online.contents == Sessions.FoundJoin(old(online.contents), uuids, seconds, name)
    {
      var contents := online.contents;
      if name in contents.values {
        var e := contents.values[name];
        online.contents := contents.Put(name, e.(count := e.count + 1));
      } else {
        var uuid := if name in uuids then uuids[name] else name;
        online.contents := contents.Put(name, Login(uuid, seconds, 1));
      }
    }

    /** `found_leave`; the count is lowered in place before the negative check raises. */
    method FoundLeave(seconds: Option<int>, name: string, reason: string) returns (err: Option<ConvertError>)
      modifies this`times, online`contents
      ensures var r := Sessions.FoundLeave(old(Ledger(online.contents, times)), seconds, name);
        && (err.None? <==> r.Ok?)
        && (r.Ok? ==> Ledger(online.contents, times) == r.value)
        && (r.Err? ==> err == Some(r.error) && times == old(times))
      ensures err.Some? ==> err.value.LeftMoreThanJoined?
    {
      var contents := online.contents;
      if name !in contents.values {
        return None;
      }
      var e := contents.values[name];
      var n := e.count - 1;
      online.contents := contents.Put(name, e.(count := n));
      if n == 0 {
        online.contents := online.contents.Delete(name);
        times := times + [Session(e.uuid, e.joinTime, seconds, name)];
      } else if n < 0 {
        return Some(LeftMoreThanJoined(name));
      }
      return None;
    }

    /** `found_stop`: a second stop is only logged. */
    method FoundStop()
      modifies this`stopped
      ensures stopped
    {
      stopped := true;
    }

    /** The loop `for name in list(self.online.keys())[:]: self.found_leave(-1, seconds, name, reason)`. */
    method LeaveEach(seconds: Option<int>, reason: string) returns (err: Option<ConvertError>)
      modifies this`times, online`contents
      ensures var r := LeaveAll(old(Ledger(online.contents, times)), seconds, old(online.contents.keys));
        && (err.None? <==> r.Ok?)
        && (r.Ok? ==> Ledger(online.contents, times) == r.value)
        && (r.Err? ==> err == Some(r.error))
      ensures err.Some? ==> err.value.LeftMoreThanJoined?
    {
      var names := online.contents.keys;
      err := None;
      var i := 0;
      while i < |names|
        invariant 0 <= i <= |names|
        invariant err.None?
        invariant LeaveAll(old(Ledger(online.contents, times)), seconds, names[..i]) == Ok(Ledger(online.contents, times))
      {
        err := FoundLeave(seconds, names[i], reason);
        assert names[..i + 1][..i] == names[..i];
        if err.Some? {
          LeaveAllStopsAtError(old(Ledger(online.contents, times)), seconds, names, i + 1);
          return;
        }
        i := i + 1;
      }
      assert names[..i] == names;
    }

    /** `peek_start`: whether the first line is the boot line; its time becomes `first_event`. */
    method PeekStart() returns (s: bool)
      modifies this`started, this`firstEvent
      ensures started == Some(s)
      ensures old(started).Some? ==> s == old(started).value && firstEvent == old(firstEvent)
      ensures old(started).None? ==> s == text.boot.Some? && firstEvent == if s then text.boot else old(firstEvent)
    {
      if started.Some? {
        return started.value;
      }
      s := text.boot.Some?;
      started := Some(s);
      if s {
        firstEvent := text.boot;
      }
    }

    /** The line loop of `convert_log`, stopping at the first error. */
    method ConvertLines() returns (err: Option<ConvertError>)
      modifies this`uuids, this`firstEvent, this`lastEvent, this`stopped, this`times, online`contents
      ensures var r := Run(old(State()), text.lines);
        && (err.None? <==> r.Ok?)
        && (r.Ok? ==> State() == r.value)
        && (r.Err? ==> err == Some(r.error))
      ensures err.Some? ==> err.value.LeftMoreThanJoined?
    {
      var lines := text.lines;
      err := None;
      var i := 0;
      while i < |lines|
        invariant 0 <= i <= |lines|
        invariant err.None?
        invariant Run(old(State()), lines[..i]) == Ok(State())
      {
        assert lines[..i + 1][..i] == lines[..i];
        err := ConvertLine(lines[i]);
        if err.Some? {
          RunStopsAtError(old(State()), lines, i + 1);
          return;
        }
        i := i + 1;
      }
      assert lines[..i] == lines;
    }

    /**
     * One line: a timestamp moves `first_event` and `last_event`, then the first action whose
     * regex matches the rest of the line runs.
     */
    method ConvertLine(line: Line) returns (err: Option<ConvertError>)
      modifies this`uuids, this`firstEvent, this`lastEvent, this`stopped, this`times, online`contents
      ensures var r := Step(old(State()), line);
        && (err.None? <==> r.Ok?)
        && (r.Ok? ==> State() == r.value)
        && (r.Err? ==> err == Some(r.error))
      ensures err.Some? ==> err.value.LeftMoreThanJoined?
    {
      err := None;
      if line.Timed? {
        var seconds := line.seconds;
        if firstEvent.None? {
          firstEvent := Some(seconds);
        }
        if lastEvent.None? || lastEvent.value < seconds {
          lastEvent := Some(seconds);
        }
        match line.event {
          case NoAction =>
          case Uuid(name, uuid) => FoundUuid(name, uuid);
          case Join(name) => FoundJoin(seconds, name);
          case Leave(name, reason) => err := FoundLeave(Some(seconds), name, reason);
          case Stop => FoundStop();
        }
      }
    }

    // -------------------------------------------------------------------------------------
    // Reading and converting

    /** After `convert_log` succeeded, before `read_log` sets `been_read`. */
    ghost predicate Converted()
      reads repr, root
    {
      && Linked()
      && !beenRead
      && (prevLog != null ==> prevLog.AllRead())
      && converted.Some?
      && Convert(Inherited(), text) == Ok(converted.value)
      && converted.value == FileState(uuids, Ledger(root.contents, times), stopped, firstEvent, lastEvent)
      && started == Some(text.boot.Some?)
      && online == root
    }

    /**
     * `read_log` when no converted cache exists: converts the whole unread part of the chain
     * in order, so the result is the conversion of the chain's texts. A read file is left alone.
     */
    method ReadLog() returns (err: Option<ConvertError>)
      requires Valid()
      modifies repr, root
      decreases |texts|, 4
      ensures err.None? ==> Valid() && beenRead
      ensures err.Some? ==> ConvertChain(texts) == Err(err.value) && !beenRead
      ensures old(beenRead) ==> err.None? && unchanged(repr, root)
      ensures !old(beenRead) && err.None? ==> root.contents == converted.value.ledger.online
    {
      if beenRead {
        ValidReadIsAllRead();
        AllReadConverts();
        return None;
      }
      err := ConvertLog();
      if err.None? {
        beenRead := true;
        AllReadIsValid();
        AllReadConverts();
      }
    }

    /**
     * `convert_log` after `peek_start` up to the line loop. The first file must start with a boot
     * line; a later file reads its predecessor, takes over its `online` object, and, when the
     * server restarted, sends a leave to everyone inherited.
     */
    method Open(s: bool) returns (err: Option<ConvertError>)
      requires Linked() && Unread() && started == Some(s)
      requires prevLog == null ==> ownTable.contents == Empty()
      requires prevLog != null ==> prevLog.Valid()
      requires prevLog != null && prevLog.beenRead ==>
        prevLog.converted.Some? && root.contents == prevLog.converted.value.ledger.online
      modifies repr, root
      decreases |texts|, 2
      ensures !beenRead && converted == None
      ensures err.None? ==>
        && (prevLog != null ==> prevLog.AllRead())
        && online == root && started == Some(text.boot.Some?)
        && Begin(Inherited(), text) == Ok(Ledger(online.contents, times))
        && uuids == map[] && !stopped && firstEvent == text.boot && lastEvent == None
      ensures err.Some? ==> ConvertChain(texts) == Err(err.value)
    {
      if prevLog == null {
        if !s {
          err := Some(FirstLogNoStart);
          ChainFailsWith(err.value);
        } else {
          err := None;
        }
        return;
      }
      err := OpenNext(s);
    }

    /** `Open` for a file with a predecessor. */
    method OpenNext(s: bool) returns (err: Option<ConvertError>)
      requires Linked() && Unread() && started == Some(s) && prevLog != null && prevLog.Valid()
      requires prevLog.beenRead ==> prevLog.converted.Some? && root.contents == prevLog.converted.value.ledger.online
      modifies prevLog.repr, root, this`online, this`times
      decreases |texts|, 1
      ensures err.None? ==>
        && prevLog.AllRead() && online == root
        && Begin(Inherited(), text) == Ok(Ledger(online.contents, times))
      ensures err.Some? ==> ConvertChain(texts) == Err(err.value)
    {
      err := ReadPrev();
      if err.Some? {
        return;
      }
      err := TakeOver(s);
      if err.Some? {
        ChainFailsWith(err.value);
      }
    }

    /** `self.prev_log.read_log()`: afterwards the shared table holds the predecessor's `online`. */
    method ReadPrev() returns (err: Option<ConvertError>)
      requires Linked() && prevLog != null && prevLog.Valid()
      requires prevLog.beenRead ==> prevLog.converted.Some? && root.contents == prevLog.converted.value.ledger.online
      modifies prevLog.repr, root
      decreases |texts|, 0
      ensures unchanged(this)
      ensures err.None? ==>
        && prevLog.AllRead() && prevLog.converted.Some?
        && prevLog.online == root && prevLog.lastEvent == prevLog.converted.value.lastEvent
        && root.contents == prevLog.converted.value.ledger.online
      ensures err.Some? ==> ConvertChain(texts) == Err(err.value)
    {
      ghost var wasRead := prevLog.beenRead;
      err := prevLog.ReadLog();
      if err.Some? {
        PrevFails(err.value);
        return;
      }
      prevLog.ValidReadIsAllRead();
      if wasRead {
        assert root.contents == prevLog.converted.value.ledger.online;
      }
    }

    /**
     * `self.online = prev_log.online`, then, if this file starts with a boot line, one leave at
     * the predecessor's `last_event` for everyone still online there.
     */
    method TakeOver(s: bool) returns (err: Option<ConvertError>)
      requires prevLog != null && prevLog != this && prevLog.converted.Some?
      requires prevLog.online == root && prevLog.lastEvent == prevLog.converted.value.lastEvent
      requires root.contents == prevLog.converted.value.ledger.online
      requires times == [] && s == text.boot.Some?
      modifies this`online, this`times, root`contents
      ensures online == root
      ensures err.None? ==> Begin(Inherited(), text) == Ok(Ledger(online.contents, times))
      ensures err.Some? ==> Convert(Inherited(), text) == Err(err.value)
    {
      online := prevLog.online;
      err := None;
      if s {
        err := LeaveEach(prevLog.lastEvent, "Server Crash");
      }
    }

    /** `convert_log` after `Open`: the line loop, then the leaves of a stopped server. */
    method ConvertRest(ghost prev: Option<Inheritance>) returns (err: Option<ConvertError>)
      requires Begin(prev, text) == Ok(Ledger(online.contents, times))
      requires uuids == map[] && !stopped && firstEvent == text.boot && lastEvent == None
      modifies this`uuids, this`firstEvent, this`lastEvent, this`stopped, this`times, online`contents
      ensures err.None? ==> Convert(prev, text) == Ok(State())
      ensures err.Some? ==> Convert(prev, text) == Err(err.value) && err.value.LeftMoreThanJoined?
    {
      err := ConvertLines();
      if err.Some? {
        return;
      }
      if stopped {
        err := LeaveEach(lastEvent, "Server Stop");
      }
    }

    /** `convert_log` */
    method ConvertLog() returns (err: Option<ConvertError>)
      requires Valid() && !beenRead
      modifies repr, root
      decreases |texts|, 3
      ensures !beenRead
      ensures err.None? ==> Converted() && root.contents == converted.value.ledger.online
      ensures err.Some? ==> ConvertChain(texts) == Err(err.value)
    {
      var s := PeekStart();
      err := Open(s);
      if err.Some? {
        return;
      }
      err := Finish();
    }

    /** The rest of `convert_log` once `Open` succeeded, and the state it leaves recorded. */
    method Finish() returns (err: Option<ConvertError>)
      requires Linked() && !beenRead
      requires prevLog != null ==> prevLog.AllRead()
      requires online == root && started == Some(text.boot.Some?)
      requires Begin(Inherited(), text) == Ok(Ledger(online.contents, times))
      requires uuids == map[] && !stopped && firstEvent == text.boot && lastEvent == None
      modifies this`uuids, this`firstEvent, this`lastEvent, this`stopped, this`times, this`converted, root`contents
      ensures err.None? ==> Converted() && root.contents == converted.value.ledger.online
      ensures err.Some? ==> ConvertChain(texts) == Err(err.value)
    {
      err := ConvertRest(Inherited());
      if err.Some? {
        ChainFailsWith(err.value);
        return;
      }
      converted := Some(State());
    }
  }
}
