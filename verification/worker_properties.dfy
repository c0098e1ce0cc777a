/**
 * What the worker's tick machine guarantees across several steps: the
 * settings `initialize` writes, and how `process` behaves after `start`,
 * `pause` and `stop`.
 */
module WorkerProperties {
  import opened JsValues
  import opened Store
  import Drivers
  import RedisDriver
  import Queue
  import MemoryDriver
  import opened Worker

  /** `getInfos` reads the record field by field. */
  lemma GetInfos(w: Worker, st: Store, f: string)
    ensures Get(Drivers.HGetAll(Driver(w), st, w.completeName), f) == Info(w, st, f)
  {
  }

  /** A new worker with default options writes these settings on
      `initialize`: numbers in memory, their text on a Redis server. */
  lemma InitializeWritesDefaults(queue: Queue.Queue, d: Drivers.Driver, name: string, action: string, st: Store, pid: int)
    ensures var w := New(queue, d, name, action, map[]);
      var r := Initialize(w, st, pid);
      && (d.Memory? ==>
        && Info(r.0, r.1, "waiting_timeout") == Some(Num(1))
        && Info(r.0, r.1, "loop_sleep") == Some(Num(0))
        && Info(r.0, r.1, "pause_sleep_time") == Some(Num(5))
        && Info(r.0, r.1, "data_per_tick") == Some(Num(1)))
      && (d.Redis? ==>
        && Info(r.0, r.1, "waiting_timeout") == Some(Str("1"))
        && Info(r.0, r.1, "loop_sleep") == Some(Str("0"))
        && Info(r.0, r.1, "pause_sleep_time") == Some(Str("5"))
        && Info(r.0, r.1, "data_per_tick") == Some(Str("1")))
      && Info(r.0, r.1, "type") == Some(Str("FIFO"))
      && Info(r.0, r.1, "language") == Some(Str("nodejs"))
      && Info(r.0, r.1, "queue") == Some(Str(queue.name))
  {
    assert IntText(0) == "0" && IntText(1) == "1" && IntText(5) == "5";
  }

  /** After `stop` at time t, `process` at any later time closes and pops
      nothing. */
  lemma StopThenProcessCloses(w: Worker, st: Store, pid: int, t: int, now: int, env: seq<RedisDriver.Exec>)
    requires now > t
    ensures var s := Stop(w, st, pid, t);
      Process(s.0, s.1, now, env) == Tick(s.0, s.1, Close, None)
  {
    var s := Stop(w, st, pid, t);
    assert Drivers.Stored(Driver(s.0), Date(t)) == Date(t);
    GetInfos(s.0, s.1, "end_date");
  }

  /** A fresh worker's record after `start`: its settings as `initialize`
      wrote them, status STARTED and the end date `expire` seconds ahead. */
  lemma StartRecord(w: Worker, st: Store, pid: int, t0: int)
    requires !w.initialized && Millis(Some(w.options.expire)).Some?
    ensures var s := Start(w, st, pid, t0);
      && HoldsSettings(s.worker, s.store, pid)
      && Info(s.worker, s.store, "status") == Some(Str("STARTED"))
      && Info(s.worker, s.store, "end_date") == Some(Date(t0 + Millis(Some(w.options.expire)).value))
  {
    var s := Start(w, st, pid, t0);
    StartHoldsSettings(w, st, pid, t0);
    StartWrites(w, st, pid, t0);
  }

  /** A record whose end date lies ahead and whose status is not PAUSE makes
      `process` pop, at the end its type names and as many items as its
      `data_per_tick` says. */
  lemma LiveRecordPops(w: Worker, st: Store, now: int, env: seq<RedisDriver.Exec>, t: int)
    requires Info(w, st, "end_date") == Some(Date(t)) && now <= t
    requires Info(w, st, "status") != Some(Str("PAUSE"))
    ensures Process(w, st, now, env).popped ==
      Some((if Info(w, st, "type") == Some(Str("FIFO")) then Front else Back, LoopCount(Info(w, st, "data_per_tick"))))
  {
    var infos := Drivers.HGetAll(Driver(w), st, w.completeName);
    GetInfos(w, st, "end_date");
    GetInfos(w, st, "status");
    GetInfos(w, st, "type");
    GetInfos(w, st, "data_per_tick");
    assert Drivers.Stored(Driver(w), Date(t)) == Date(t);
    assert !Expired(infos, now);
  }

  /** Only the string FIFO reads back as FIFO: no number, boolean or NaN has
      that text. */
  lemma StoredFifo(d: Drivers.Driver, v: Value)
    ensures Drivers.Stored(d, v) == Str("FIFO") <==> v == Str("FIFO")
  {
    if v.Num? && d.Redis? {
      var t := IntText(v.n);
      if v.n < 0 {
        assert t[0] == '-';
      } else {
        assert IsDigit(t[0]);
      }
    }
  }

  /** A live, unpaused record holding a worker's settings pops as those
      settings say. */
  lemma SettledRecordPops(w: Worker, st: Store, pid: int, now: int, env: seq<RedisDriver.Exec>, t: int, count: nat)
    requires HoldsSettings(w, st, pid) && w.options.dataPerTick == Num(count)
    requires Info(w, st, "end_date") == Some(Date(t)) && now <= t
    requires Info(w, st, "status") != Some(Str("PAUSE"))
    ensures Process(w, st, now, env).popped ==
      Some((if w.options.typeName == Str("FIFO") then Front else Back, count))
  {
    var d := Driver(w);
    LiveRecordPops(w, st, now, env, t);
    assert LoopCount(Info(w, st, "data_per_tick")) == count by {
      if d.Redis? { NumberSurvivesText(count); }
    }
    StoredFifo(d, w.options.typeName);
  }

  /** A paused record before its end date: `process` only re-arms itself
      after `pause_sleep_time` seconds; no pop, no write. */
  lemma PausedRecordWaits(w: Worker, st: Store, now: int, env: seq<RedisDriver.Exec>, t: int)
    requires Info(w, st, "end_date") == Some(Date(t)) && now <= t
    requires Info(w, st, "status") == Some(Str("PAUSE"))
    ensures Process(w, st, now, env) == Tick(w, st, ProcessAfter(Millis(Info(w, st, "pause_sleep_time"))), None)
  {
    var infos := Drivers.HGetAll(Driver(w), st, w.completeName);
    GetInfos(w, st, "end_date");
    GetInfos(w, st, "status");
    GetInfos(w, st, "pause_sleep_time");
    assert Drivers.Stored(Driver(w), Date(t)) == Date(t);
    assert !Expired(infos, now);
  }

  /** `pause` on a live record holding a worker's settings: `process` then
      waits the pause length those settings give. */
  lemma PauseSettledRecord(w: Worker, st: Store, pid: int, t1: int, t: int, now: int, env: seq<RedisDriver.Exec>)
    requires w.initialized && HoldsSettings(w, st, pid)
    requires Info(w, st, "end_date") == Some(Date(t)) && now <= t
    ensures var p := Pause(w, st, pid, t1);
      && p.0 == w
      && Process(p.0, p.1, now, env) ==
        Tick(p.0, p.1, ProcessAfter(Millis(Some(Drivers.Stored(Driver(p.0), w.options.pauseSleepTime)))), None)
  {
    var p := Pause(w, st, pid, t1);
    PauseFrame(w, st, pid, t1, "end_date");
    PauseFrame(w, st, pid, t1, "pause_sleep_time");
    PausedRecordWaits(p.0, p.1, now, env, t);
  }

  /** The record after `start` and `pause`: paused, with the end date `start`
      wrote still there. */
  lemma PauseAfterStart(w: Worker, st: Store, pid: int, t0: int, t1: int)
    requires !w.initialized && Millis(Some(w.options.expire)).Some?
    ensures var s := Start(w, st, pid, t0);
      var p := Pause(s.worker, s.store, pid, t1);
      && p.0 == s.worker
      && Info(p.0, p.1, "status") == Some(Str("PAUSE"))
      && Info(p.0, p.1, "end_date") == Some(Date(t0 + Millis(Some(w.options.expire)).value))
  {
    var s := Start(w, st, pid, t0);
    StartRecord(w, st, pid, t0);
    PauseFrame(s.worker, s.store, pid, t1, "end_date");
  }

  /** The default pause is 5 seconds whichever driver keeps the record. */
  lemma DefaultPauseIsFiveSeconds(d: Drivers.Driver)
    ensures Millis(Some(Drivers.Stored(d, Extend(map[]).pauseSleepTime))) == Some(5000)
  {
    NumberSurvivesText(5);
  }

  /** The action's completion with the default `loop_sleep` 0: the in-memory
      record holds the number 0 and the next tick runs at once; a Redis
      record holds the text "0", which is not the number 0, so the worker
      sets SLEEPING and re-arms with a zero delay. */
  lemma DefaultLoopSleep(queue: Queue.Queue, d: Drivers.Driver, name: string, action: string, st: Store, pid: int, now: int)
    ensures var w := New(queue, d, name, action, map[]);
      var i := Initialize(w, st, pid);
      var infos := Drivers.HGetAll(Driver(i.0), i.1, w.completeName);
      && infos.Some?
      && (d.Memory? ==> ActionDone(i.0, i.1, infos.value, now) == (i.1, ProcessNow))
      && (d.Redis? ==>
          && ActionDone(i.0, i.1, infos.value, now).1 == ProcessAfter(Some(0))
          && Info(i.0, ActionDone(i.0, i.1, infos.value, now).0, "status") == Some(Str("SLEEPING")))
  {
    var w := New(queue, d, name, action, map[]);
    var i := Initialize(w, st, pid);
    InitializeWritesDefaults(queue, d, name, action, st, pid);
    GetInfos(i.0, i.1, "loop_sleep");
    if d.Redis? {
      NumberSurvivesText(0);
    }
  }

  /** A fresh worker with default options on a fresh in-memory driver
      shared with its queue, just started: the first `initialize` emptied the
      store, and the record is STARTED with the counter at 0. */
  lemma FreshMemoryStart(name: string, action: string, st: Store, pid: int, t0: int)
    requires !st.memoryReady
    ensures var w := New(Queue.New("Q", Drivers.Memory, map[]), Drivers.Memory, name, action, map[]);
      var s := Start(w, st, pid, t0);
      && Queue.Items(s.worker.queue, s.store) == []
      && Info(s.worker, s.store, "status") == Some(Str("STARTED"))
      && Info(s.worker, s.store, "cpt_action") == Some(Num(0))
  {
    var q := Queue.New("Q", Drivers.Memory, map[]);
    var w := New(q, Drivers.Memory, name, action, map[]);
    StartWrites(w, st, pid, t0);
  }

  /** That record ends 200 days (17280000 seconds) after the start. */
  lemma FreshMemoryEndDate(name: string, action: string, st: Store, pid: int, t0: int)
    ensures var w := New(Queue.New("Q", Drivers.Memory, map[]), Drivers.Memory, name, action, map[]);
      var s := Start(w, st, pid, t0);
      Info(s.worker, s.store, "end_date") == Some(Date(t0 + 17280000 * 1000))
  {
    var q := Queue.New("Q", Drivers.Memory, map[]);
    var w := New(q, Drivers.Memory, name, action, map[]);
    DefaultExpiry();
    StartRecord(w, st, pid, t0);
  }

  lemma DefaultExpiry()
    ensures Millis(Some(Extend(map[]).expire)) == Some(17280000 * 1000)
  {
  }

  /** That record holds the default settings, as numbers and text. */
  lemma FreshMemorySettings(name: string, action: string, st: Store, pid: int, t0: int)
    ensures var w := New(Queue.New("Q", Drivers.Memory, map[]), Drivers.Memory, name, action, map[]);
      var s := Start(w, st, pid, t0);
      && Info(s.worker, s.store, "type") == Some(Str("FIFO"))
      && Info(s.worker, s.store, "data_per_tick") == Some(Num(1))
      && Info(s.worker, s.store, "waiting_timeout") == Some(Num(1))
      && Info(s.worker, s.store, "loop_sleep") == Some(Num(0))
  {
    var q := Queue.New("Q", Drivers.Memory, map[]);
    var w := New(q, Drivers.Memory, name, action, map[]);
    StartRecord(w, st, pid, t0);
  }

  /** That worker's first `process` finds the queue empty: it pops one item
      from the front, gets nothing, sets WAITING and re-arms after one
      second, without running the action. */
  lemma FreshMemoryWorkerWaits(name: string, action: string, st: Store, pid: int, t0: int, now: int, env: seq<RedisDriver.Exec>)
    requires !st.memoryReady && now <= t0 + 17280000 * 1000
    ensures var w := New(Queue.New("Q", Drivers.Memory, map[]), Drivers.Memory, name, action, map[]);
      var s := Start(w, st, pid, t0);
      var r := Process(s.worker, s.store, now, env);
      && r.popped == Some((Front, 1))
      && r.next == ProcessAfter(Some(1000))
      && Info(r.worker, r.store, "status") == Some(Str("WAITING"))
  {
    var q := Queue.New("Q", Drivers.Memory, map[]);
    var w := New(q, Drivers.Memory, name, action, map[]);
    var s := Start(w, st, pid, t0);
    FreshMemoryStart(name, action, st, pid, t0);
    FreshMemorySettings(name, action, st, pid, t0);
    FreshMemoryEndDate(name, action, st, pid, t0);
    EmptyMemoryQueueWaits(s.worker, s.store, now, env, t0 + 17280000 * 1000);
  }

  /** A live in-memory record of type FIFO, one item per tick, over an empty
      queue: `process` pops one item from the front, gets nothing, sets
      WAITING and re-arms after `waiting_timeout` seconds. */
  lemma EmptyMemoryQueueWaits(w: Worker, st: Store, now: int, env: seq<RedisDriver.Exec>, t: int)
    requires Driver(w) == Drivers.Memory && w.queue.driver == Drivers.Memory && Queue.Items(w.queue, st) == []
    requires Info(w, st, "end_date") == Some(Date(t)) && now <= t
    requires Info(w, st, "status") == Some(Str("STARTED"))
    requires Info(w, st, "type") == Some(Str("FIFO")) && Info(w, st, "data_per_tick") == Some(Num(1))
    ensures var r := Process(w, st, now, env);
      && r.popped == Some((Front, 1))
      && r.next == ProcessAfter(Millis(Info(w, st, "waiting_timeout")))
      && Info(r.worker, r.store, "status") == Some(Str("WAITING"))
  {
    LiveRecordPops(w, st, now, env, t);
    var infos := Drivers.HGetAll(Driver(w), st, w.completeName);
    GetInfos(w, st, "end_date");
    GetInfos(w, st, "status");
    GetInfos(w, st, "type");
    GetInfos(w, st, "waiting_timeout");
    assert Drivers.Stored(Driver(w), Date(t)) == Date(t);
    assert !Expired(infos, now);
    var i := Queue.Initialize(w.queue, st);
    assert Queue.Items(w.queue, i.store) == [];
    var p := Queue.Pop(w.queue, st, Front, 1, env);
    MemoryDriver.LPopRemovesFront(i.store, w.queue.name, 1);
    assert p.reply.items == [];
  }

  /** A worker and a queue value holding the same in-memory driver: once the
      worker's `initialize` has run, a push through a queue value that never
      ran `initialize` itself leaves the worker's settings in place. */
  lemma SharedMemoryDriver(w: Worker, st: Store, pid: int, q: Queue.Queue, end: End, data: string, env: seq<RedisDriver.Exec>)
    requires !w.initialized && Driver(w) == Drivers.Memory && q.driver == Drivers.Memory
    ensures var i := Initialize(w, st, pid);
      HoldsSettings(i.0, Queue.Push(q, i.1, end, data, env).store, pid)
  {
    var i := Initialize(w, st, pid);
    Queue.StaleQueueKeepsRecords(q, i.1, end, data, env);
  }
}
