/**
 * electron/logCat.ts: one `adb logcat` session per device in `logMap`, each with a queue of
 * at most 2000 lines that drops the oldest, a flush timer that hands the whole queue over as
 * one batch, and an end notice that tells a manual stop (SIGTERM) from any other end.
 * Processes, the line reader and the timer are events: `Line`, `Tick`, `Exit`, `Error`.
 */
module LogCat {
  import opened Wrappers
  import opened Window

  const MaxQueueLines: nat := 2000

  /** The `line` handler on one queue: push, then drop the oldest lines beyond the cap. */
  function Pushed(queue: seq<string>, line: string): (r: seq<string>)
    ensures |r| <= MaxQueueLines && 0 < |r|
    ensures r[|r| - 1] == line
  {
    var q := queue + [line];
    if |q| > MaxQueueLines then q[|q| - MaxQueueLines..] else q
  }

  /** Below the cap nothing is dropped. */
  lemma PushedShort(queue: seq<string>, line: string)
    requires |queue| < MaxQueueLines
    ensures Pushed(queue, line) == queue + [line]
  {
  }

  /**
   * Pushing one line at a time keeps exactly the newest 2000 lines received since the
   * last flush, in arrival order.
   */
  lemma PushedNewest(received: seq<string>, line: string)
    ensures Pushed(Newest(received, MaxQueueLines), line) == Newest(received + [line], MaxQueueLines)
  {
    NewestAppend(received, [line], MaxQueueLines);
  }

  /** One `adb -s <serial> logcat` spawn and whether the caller passed an `onEnd` callback. */
  datatype LogLaunch = LogLaunch(serial: string, program: string, args: seq<string>, hasOnEnd: bool)

  /** What the callbacks receive: `onBatch(lines)` and `onEnd(manual)`, tagged with the process. */
  datatype Notice = Batch(pid: nat, lines: seq<string>) | End(pid: nat, manual: bool)

  /** The bookkeeping of the service, without the queues themselves. */
  datatype Books = Books(
    logMap: map<string, nat>, launches: seq<LogLaunch>, kills: seq<nat>, liveKeys: set<nat>,
    exited: set<nat>, errored: set<nat>, notices: seq<Notice>)

  /** Every entry names a session started for that serial whose cleanup has not run. */
  ghost predicate MapOk(b: Books) {
    forall s {:trigger b.logMap[s]} :: s in b.logMap ==>
      b.logMap[s] in b.liveKeys && b.logMap[s] < |b.launches| && b.launches[b.logMap[s]].serial == s
  }

  /** Live sessions, ended sessions and signalled processes were all started. */
  ghost predicate EventsOk(b: Books) {
    && (forall p :: p in b.liveKeys ==> p < |b.launches|)
    && (forall p :: p in b.exited || p in b.errored ==> p < |b.launches|)
    && (forall i :: 0 <= i < |b.kills| ==> b.kills[i] < |b.launches|)
  }

  /** No empty or oversized batch, and no batch after the end of its session. */
  ghost predicate NoticesOk(b: Books) {
    && (forall i :: 0 <= i < |b.notices| ==> b.notices[i].pid < |b.launches|)
    && (forall i :: 0 <= i < |b.notices| && b.notices[i].Batch? ==> 0 < |b.notices[i].lines| <= MaxQueueLines)
    && (forall i :: 0 <= i < |b.notices| && b.notices[i].End? ==> b.notices[i].pid !in b.liveKeys)
    && (forall i, j :: 0 <= i < j < |b.notices| && b.notices[i].End? && b.notices[j].Batch? ==>
          b.notices[i].pid != b.notices[j].pid)
  }

  ghost predicate BooksOk(b: Books) {
    MapOk(b) && EventsOk(b) && NoticesOk(b)
  }

  /** A start books a new process, and nothing else. */
  lemma StartKeepsBooks(b: Books, c: Books, launch: LogLaunch)
    requires BooksOk(b) && launch.serial !in b.logMap
    requires c.launches == b.launches + [launch] && c.logMap == b.logMap[launch.serial := |b.launches|]
    requires c.liveKeys == b.liveKeys + {|b.launches|}
    requires c.kills == b.kills && c.exited == b.exited && c.errored == b.errored && c.notices == b.notices
    ensures BooksOk(c)
  {
  }

  /** A cleanup drops a session and the entry of its serial. */
  lemma CleanupKeepsBooks(b: Books, c: Books, p: nat)
    requires BooksOk(b) && p < |b.launches|
    requires c.logMap == b.logMap - {b.launches[p].serial} && c.liveKeys == b.liveKeys - {p}
    requires c.launches == b.launches && c.kills == b.kills && c.exited == b.exited
    requires c.errored == b.errored && c.notices == b.notices
    ensures BooksOk(c)
  {
  }

  /** A signal goes to a process that `logMap` holds. */
  lemma KillKeepsBooks(b: Books, c: Books, serial: string)
    requires BooksOk(b) && serial in b.logMap
    requires c.logMap == b.logMap && c.launches == b.launches && c.liveKeys == b.liveKeys
    requires c.exited == b.exited && c.errored == b.errored
    requires c.kills == b.kills + [b.logMap[serial]] && c.notices == b.notices
    ensures BooksOk(c)
  {
  }

  /** A batch of a live session. */
  lemma BatchKeepsBooks(b: Books, c: Books, p: nat, lines: seq<string>)
    requires BooksOk(b) && p in b.liveKeys && 0 < |lines| <= MaxQueueLines
    requires c.logMap == b.logMap && c.launches == b.launches && c.liveKeys == b.liveKeys
    requires c.exited == b.exited && c.errored == b.errored
    requires c.kills == b.kills && c.notices == b.notices + [Batch(p, lines)]
    ensures BooksOk(c)
  {
    var n := c.notices;
    forall i, j | 0 <= i < j < |n| && n[i].End? && n[j].Batch? ensures n[i].pid != n[j].pid {
      if j == |b.notices| {
        assert n[i] == b.notices[i];
      } else {
        assert n[i] == b.notices[i] && n[j] == b.notices[j];
      }
    }
  }

  /** The end of a session that has been cleaned up, with or without its notice. */
  lemma EndKeepsBooks(b: Books, c: Books, p: nat, ended: seq<Notice>, failed: bool)
    requires BooksOk(b) && p < |b.launches| && p !in b.liveKeys
    requires ended == [] || (|ended| == 1 && ended[0].End? && ended[0].pid == p)
    requires c.logMap == b.logMap && c.launches == b.launches && c.kills == b.kills && c.liveKeys == b.liveKeys
    requires c.exited == (if failed then b.exited else b.exited + {p})
    requires c.errored == (if failed then b.errored + {p} else b.errored)
    requires c.notices == b.notices + ended
    ensures BooksOk(c)
  {
    var n := c.notices;
    forall i, j | 0 <= i < j < |n| && n[i].End? && n[j].Batch? ensures n[i].pid != n[j].pid {
      assert j < |b.notices|;
      assert n[i] == b.notices[i] && n[j] == b.notices[j];
    }
  }

  /** Every queue is the newest 2000 lines its session received since the last flush. */
  ghost predicate QueuesOk(queues: map<nat, seq<string>>, received: map<nat, seq<string>>) {
    received.Keys == queues.Keys
    && forall p :: p in queues ==> queues[p] == Newest(received[p], MaxQueueLines)
  }

  lemma QueuesAdd(queues: map<nat, seq<string>>, received: map<nat, seq<string>>, p: nat)
    requires QueuesOk(queues, received)
    ensures QueuesOk(queues[p := []], received[p := []])
  {
  }

  /** Flushing a live queue: it is within the cap, and emptying it keeps the invariant. */
  lemma QueuesFlush(queues: map<nat, seq<string>>, received: map<nat, seq<string>>, p: nat)
    requires QueuesOk(queues, received) && p in queues
    ensures |queues[p]| <= MaxQueueLines
    ensures QueuesOk(queues[p := []], received[p := []])
    ensures queues[p := []].Keys == queues.Keys
  {
  }

  lemma QueuesPush(queues: map<nat, seq<string>>, received: map<nat, seq<string>>, p: nat, line: string)
    requires QueuesOk(queues, received) && p in queues
    ensures QueuesOk(queues[p := Pushed(queues[p], line)], received[p := received[p] + [line]])
  {
    PushedNewest(received[p], line);
  }

  lemma QueuesRemove(queues: map<nat, seq<string>>, received: map<nat, seq<string>>, p: nat)
    requires QueuesOk(queues, received)
    ensures QueuesOk(queues - {p}, received - {p})
  {
  }

  /** The process `logMap` holds for each serial of `serials`, in that order. */
  function Targets(serials: seq<string>, logMap: map<string, nat>): (r: seq<nat>)
    requires forall s :: s in serials ==> s in logMap
    ensures |r| == |serials|
    ensures forall i :: 0 <= i < |r| ==> r[i] == logMap[serials[i]]
  {
    if serials == [] then [] else Targets(serials[..|serials| - 1], logMap) + [logMap[serials[|serials| - 1]]]
  }

  lemma TargetsSnoc(before: seq<nat>, serials: seq<string>, i: nat, logMap: map<string, nat>)
    requires i < |serials| && forall s :: s in serials ==> s in logMap
    ensures before + Targets(serials[..i + 1], logMap) == before + Targets(serials[..i], logMap) + [logMap[serials[i]]]
  {
    assert serials[..i + 1][..i] == serials[..i];
  }

  /** `Object.keys(m)`: every key once, in an order the model leaves open. */
  method KeysOf<V>(m: map<string, V>) returns (keys: seq<string>)
    ensures forall s :: s in keys <==> s in m
    ensures forall i, j :: 0 <= i < j < |keys| ==> keys[i] != keys[j]
  {
    keys := [];
    var todo := m.Keys;
    while todo != {}
      invariant todo <= m.Keys
      invariant forall s :: s in keys <==> s in m && s !in todo
      invariant forall i, j :: 0 <= i < j < |keys| ==> keys[i] != keys[j]
      decreases |todo|
    {
      var s :| s in todo;
      keys := keys + [s];
      todo := todo - {s};
    }
  }

  class LogcatService {
    /** `ADB_PATH`, read once when the module loads. */
    const adbPath: string
    /** `logMap`: serial to the process whose cleanup has not yet run. */
    var logMap: map<string, nat>
    var launches: seq<LogLaunch>
    /** Every SIGTERM sent, in order. */
    var kills: seq<nat>
    /** The queue of every session whose cleanup has not run: its reader and timer still work. */
    var queues: map<nat, seq<string>>
    /** The lines each live session has received since its last flush. */
    ghost var received: map<nat, seq<string>>
    var exited: set<nat>
    var errored: set<nat>
    /** Every callback invocation, in order. */
    var notices: seq<Notice>

    ghost function Snapshot(): Books
      reads this
    {
      Books(logMap, launches, kills, queues.Keys, exited, errored, notices)
    }

    /** The bookkeeping is consistent, and every queue is the newest 2000 lines since its last flush. */
    ghost predicate Valid()
      reads this
    {
      BooksOk(Snapshot()) && QueuesOk(queues, received)
    }

    constructor (adbSetting: string)
      ensures Valid()
      ensures adbPath == (if adbSetting == "" then "adb" else adbSetting)
      ensures logMap == map[] && launches == [] && kills == [] && queues == map[]
      ensures exited == {} && errored == {} && notices == []
    {
      adbPath := if adbSetting == "" then "adb" else adbSetting;
      logMap, launches, kills, queues, received := map[], [], [], map[], map[];
      exited, errored, notices := {}, {}, [];
    }

    /** `logCatProcess(serial, onBatch, onEnd)`: nothing at all when the serial is already in `logMap`. */
    method Start(serial: string, hasOnEnd: bool) returns (started: bool)
      requires Valid()
      modifies this
      ensures Valid()
      ensures started == (serial !in old(logMap))
      ensures !started ==> unchanged(this)
      ensures started ==>
        && launches == old(launches) + [LogLaunch(serial, adbPath, ["-s", serial, "logcat"], hasOnEnd)]
        && logMap == old(logMap)[serial := |old(launches)|]
        && queues == old(queues)[|old(launches)| := []]
        && kills == old(kills) && exited == old(exited) && errored == old(errored)
        && notices == old(notices)
    {
      if serial in logMap {
        return false;
      }
      var pid := |launches|;
      var launch := LogLaunch(serial, adbPath, ["-s", serial, "logcat"], hasOnEnd);
      ghost var books := Snapshot();
      QueuesAdd(queues, received, pid);
      launches := launches + [launch];
      logMap := logMap[serial := pid];
      queues := queues[pid := []];
      received := received[pid := []];
      assert queues.Keys == books.liveKeys + {pid};
      StartKeepsBooks(books, Snapshot(), launch);
      started := true;
    }

    /** A line read from process `p`'s output. */
    method Line(p: nat, line: string)
      requires Valid() && p in queues
      modifies this
      ensures Valid()
      ensures queues == old(queues)[p := Pushed(old(queues[p]), line)]
      ensures received == old(received)[p := old(received[p]) + [line]]
      ensures logMap == old(logMap) && launches == old(launches) && kills == old(kills)
      ensures exited == old(exited) && errored == old(errored) && notices == old(notices)
    {
      QueuesPush(queues, received, p, line);
      ghost var books := Snapshot();
      queues := queues[p := Pushed(queues[p], line)];
      received := received[p := received[p] + [line]];
      assert queues.Keys == old(queues).Keys;
      assert Snapshot() == books;
    }

    /** One tick of process `p`'s flush timer: the whole queue as one batch, unless it is empty. */
    method Tick(p: nat)
      requires Valid() && p in queues
      modifies this
      ensures Valid()
      ensures logMap == old(logMap) && launches == old(launches) && kills == old(kills)
      ensures exited == old(exited) && errored == old(errored)
      ensures old(queues[p]) == [] ==> notices == old(notices) && queues == old(queues)
      ensures old(queues[p]) != [] ==>
        notices == old(notices) + [Batch(p, old(queues[p]))] && queues == old(queues)[p := []]
    {
      if |queues[p]| == 0 {
        return;
      }
      ghost var books := Snapshot();
      var batch := queues[p];
      QueuesFlush(queues, received, p);
      notices := notices + [Batch(p, batch)];
      queues := queues[p := []];
      received := received[p := []];
      BatchKeepsBooks(books, Snapshot(), p, batch);
    }

    /** `stopLogcat(serial)`: signal the process; its entry stays until it ends. */
    method Stop(serial: string)
      requires Valid()
      modifies this
      ensures Valid()
      ensures kills == if serial in old(logMap) then old(kills) + [old(logMap)[serial]] else old(kills)
      ensures logMap == old(logMap) && launches == old(launches) && queues == old(queues)
      ensures exited == old(exited) && errored == old(errored) && notices == old(notices)
    {
      if serial in logMap {
        ghost var books := Snapshot();
        kills := kills + [logMap[serial]];
        KillKeepsBooks(books, Snapshot(), serial);
      }
    }

    /**
     * `stopAllLogcats()`: signal every process in `logMap`, each once and in the order of
     * `Object.keys`, and no other.
     */
    method StopAll() returns (order: seq<string>)
      requires Valid()
      modifies this
      ensures Valid()
      ensures forall s :: s in order <==> s in logMap
      ensures forall i, j :: 0 <= i < j < |order| ==> order[i] != order[j]
      ensures kills == old(kills) + Targets(order, logMap)
      ensures logMap == old(logMap) && launches == old(launches) && queues == old(queues)
      ensures exited == old(exited) && errored == old(errored) && notices == old(notices)
    {
      order := KeysOf(logMap);
      for i := 0 to |order|
        invariant logMap == old(logMap) && launches == old(launches) && queues == old(queues)
        invariant exited == old(exited) && errored == old(errored) && notices == old(notices)
        invariant Valid()
        invariant kills == old(kills) + Targets(order[..i], logMap)
      {
        TargetsSnoc(old(kills), order, i, logMap);
        Stop(order[i]);
      }
      PrefixStep(order, |order|);
    }

    /** `cleanup()`: the timer and the reader stop, and the serial's entry goes, whatever it holds now. */
    method Cleanup(p: nat)
      requires Valid() && p < |launches|
      modifies this
      ensures launches == old(launches) && kills == old(kills) && notices == old(notices)
      ensures logMap == old(logMap) - {launches[p].serial}
      ensures queues == old(queues) - {p}
      ensures exited == old(exited) && errored == old(errored)
      ensures Valid()
    {
      ghost var books := Snapshot();
      QueuesRemove(queues, received, p);
      queues := queues - {p};
      received := received - {p};
      logMap := logMap - {launches[p].serial};
      assert queues.Keys == books.liveKeys - {p};
      CleanupKeepsBooks(books, Snapshot(), p);
    }

    /** The process exited: clean up, then `onEnd(signal === "SIGTERM")` if there is an `onEnd`. */
    method Exit(p: nat, signal: Option<string>)
      requires Valid() && p < |launches| && p !in exited
      modifies this
      ensures launches == old(launches) && kills == old(kills)
      ensures Valid()
      ensures logMap == old(logMap) - {launches[p].serial} && queues == old(queues) - {p}
      ensures exited == old(exited) + {p} && errored == old(errored)
      ensures notices == old(notices) +
        if launches[p].hasOnEnd then [End(p, signal == Some("SIGTERM"))] else []
    {
      Cleanup(p);
      ghost var books := Snapshot();
      var ended := if launches[p].hasOnEnd then [End(p, signal == Some("SIGTERM"))] else [];
      exited := exited + {p};
      notices := notices + ended;
      EndKeepsBooks(books, Snapshot(), p, ended, false);
    }

    /** The process failed: clean up, then `onEnd(false)` if there is an `onEnd`. */
    method Error(p: nat)
      requires Valid() && p < |launches| && p !in exited && p !in errored
      modifies this
      ensures launches == old(launches) && kills == old(kills)
      ensures Valid()
      ensures logMap == old(logMap) - {launches[p].serial} && queues == old(queues) - {p}
      ensures errored == old(errored) + {p} && exited == old(exited)
      ensures notices == old(notices) + if launches[p].hasOnEnd then [End(p, false)] else []
    {
      Cleanup(p);
      ghost var books := Snapshot();
      var ended := if launches[p].hasOnEnd then [End(p, false)] else [];
      errored := errored + {p};
      notices := notices + ended;
      EndKeepsBooks(books, Snapshot(), p, ended, true);
    }
  }

  /** Growing a prefix by one element, and the prefix that is the whole sequence. */
  lemma PrefixStep<T>(s: seq<T>, i: nat)
    requires i <= |s|
    ensures i < |s| ==> s[..i + 1] == s[..i] + [s[i]]
    ensures s[..|s|] == s
  {
  }

  /**
   * The lines of a burst arriving between two ticks, then one tick: the batch is the newest
   * 2000 of them, and there is no batch for an empty burst.
   */
  method FeedThenFlush(serial: string, lines: seq<string>) returns (delivered: seq<Notice>)
    ensures lines == [] <==> delivered == []
    ensures lines != [] ==> delivered == [Batch(0, Newest(lines, MaxQueueLines))]
    ensures |lines| <= MaxQueueLines ==> lines != [] ==> delivered == [Batch(0, lines)]
  {
    var service := new LogcatService("");
    var started := service.Start(serial, false);
    var i := 0;
    while i < |lines|
      invariant 0 <= i <= |lines|
      invariant service.Valid() && 0 in service.queues && service.notices == []
      invariant service.received[0] == lines[..i]
      decreases |lines| - i
    {
      PrefixStep(lines, i);
      service.Line(0, lines[i]);
      i := i + 1;
    }
    PrefixStep(lines, i);
    service.Tick(0);
    delivered := service.notices;
  }

  /**
   * Start, stop, start again before the exit event, the exit with SIGTERM, start once more:
   * the early second start is ignored, the end is reported as manual, the last start works.
   */
  method StopThenRestart(serial: string) returns (first: bool, early: bool, ended: Notice, late: bool)
    ensures first && !early && late
    ensures ended == End(0, true)
  {
    var service := new LogcatService("");
    first := service.Start(serial, true);
    service.Stop(serial);
    early := service.Start(serial, true);
    service.Exit(0, Some("SIGTERM"));
    ended := service.notices[|service.notices| - 1];
    late := service.Start(serial, true);
  }

  /** Lines still queued when the process fails are never delivered; the end is not manual. */
  method ErrorDropsQueue(serial: string, line: string) returns (delivered: seq<Notice>)
    ensures delivered == [End(0, false)]
  {
    var service := new LogcatService("");
    var started := service.Start(serial, true);
    service.Line(0, line);
    service.Error(0);
    delivered := service.notices;
  }

  /** A tick after some lines delivers them as one batch, in order; the next tick delivers nothing. */
  method TickDelivers(serial: string, a: string, b: string) returns (delivered: seq<Notice>)
    ensures delivered == [Batch(0, [a, b])]
  {
    var service := new LogcatService("");
    var started := service.Start(serial, false);
    PushedShort([], a);
    PushedShort([a], b);
    assert [] + [a] == [a] && [a] + [b] == [a, b];
    service.Line(0, a);
    assert service.queues[0] == [a];
    service.Line(0, b);
    assert service.queues[0] == [a, b];
    service.Tick(0);
    assert service.notices == [Batch(0, [a, b])] && service.queues[0] == [];
    service.Tick(0);
    delivered := service.notices;
  }
}
