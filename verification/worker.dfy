/**
 * The worker: a record in the store (its settings and its status) and a tick
 * machine that reads the record, pops a batch from its queue and hands it to
 * the action. Timers become the `Next` value a step returns; the current time
 * is a parameter in milliseconds. The worker writes its record through its
 * own driver and pops through its queue's; both work on the one `Store`.
 */
module Worker {
  import opened JsValues
  import opened Store
  import Drivers
  import RedisDriver
  import Queue

  datatype Status = Started | Paused | Working | Waiting | Sleeping

  /** The text written to the `status` field. */
  function StatusText(s: Status): (t: string)
    ensures |t| > 0
  {
    match s
    case Started => "STARTED"
    case Paused => "PAUSE"
    case Working => "WORKING"
    case Waiting => "WAITING"
    case Sleeping => "SLEEPING"
  }

  lemma StatusTextInjective(a: Status, b: Status)
    ensures StatusText(a) == StatusText(b) ==> a == b
  {
  }

  /** The worker's options after `_.extend` of the defaults with the caller's. */
  datatype Options = Options(
    typeName: Value,
    loopSleepTime: Value,
    pauseSleepTime: Value,
    waitingTimeout: Value,
    dataPerTick: Value,
    expire: Value,
    unique: Value)

  function Pick(user: map<string, Value>, key: string, default: Value): (v: Value)
    ensures key in user ==> v == user[key]
    ensures key !in user ==> v == default
  {
    if key in user then user[key] else default
  }

  /** Each option the caller gives replaces its default; the others keep it. */
  function Extend(user: map<string, Value>): Options {
    Options(
      Pick(user, "type", Str("FIFO")),
      Pick(user, "loopSleepTime", Num(0)),
      Pick(user, "pauseSleepTime", Num(5)),
      Pick(user, "waitingTimeout", Num(1)),
      Pick(user, "dataPerTick", Num(1)),
      Pick(user, "expire", Num(17280000)),
      Pick(user, "unique", Bool(false)))
  }

  datatype Worker = Worker(
    queue: Queue.Queue,
    driver: Drivers.Driver,
    name: string,
    completeName: string,
    action: string,
    options: Options,
    initialized: bool)

  /** The constructor. `action` is the action's source text, which is what
      the record keeps of it. */
  function New(queue: Queue.Queue, driver: Drivers.Driver, name: string, action: string, user: map<string, Value>): (w: Worker)
    ensures w.completeName == Queue.GetName(queue) + ":" + name
    ensures w.options == Extend(user) && !w.initialized && w.driver == driver
    ensures w.queue == queue.(uniqueProperty := Truthy(Extend(user).unique))
  {
    var o := Extend(user);
    Worker(queue.(uniqueProperty := Truthy(o.unique)), driver, name, Queue.GetName(queue) + ":" + name, action, o, false)
  }

  /** The complete name joins queue and worker names with a colon; the
      `unique` option is copied to the queue's property and nothing more: the
      queue's mode is what its own options say. */
  lemma NewNamesAndUnique(queue: Queue.Queue, driver: Drivers.Driver, user: map<string, Value>)
    ensures New(Queue.New("Q", queue.driver, map[]), driver, "W", "", user).completeName == "Q:W"
    ensures Queue.UniqueMode(New(queue, driver, "W", "", user).queue) == Queue.UniqueMode(queue)
    ensures Extend(map[]) == Options(Str("FIFO"), Num(0), Num(5), Num(1), Num(1), Num(17280000), Bool(false))
  {
  }

  function Driver(w: Worker): Drivers.Driver {
    w.driver
  }

  /** A field of the worker's record. */
  function Info(w: Worker, st: Store, field: string): Option<Value> {
    Drivers.RecordField(Driver(w), st, w.completeName, field)
  }

  // -------------------------------------------------------------- writes

  predicate DistinctFields(writes: seq<(string, Value)>) {
    forall i, j :: 0 <= i < j < |writes| ==> writes[i].0 != writes[j].0
  }

  /** `hset` of each (field, value) in order, as `async.series` issues them. */
  function WriteAll(d: Drivers.Driver, st: Store, key: string, writes: seq<(string, Value)>): (r: Store)
    ensures r.lists == st.lists && r.sets == st.sets && r.memoryReady == st.memoryReady
    decreases |writes|
  {
    if |writes| == 0 then st
    else WriteAll(d, Drivers.HSet(d, st, key, writes[0].0, writes[0].1), key, writes[1..])
  }

  /** Fields not among the writes, and other records, are left alone. */
  lemma {:induction false} WriteAllFrame(d: Drivers.Driver, st: Store, key: string, writes: seq<(string, Value)>, k: string, f: string)
    requires k != Drivers.RecordKey(d, key) || forall j :: 0 <= j < |writes| ==> writes[j].0 != f
    ensures Field(WriteAll(d, st, key, writes), k, f) == Field(st, k, f)
    decreases |writes|
  {
    if |writes| > 0 {
      var st' := Drivers.HSet(d, st, key, writes[0].0, writes[0].1);
      if k == Drivers.RecordKey(d, key) {
        assert writes[0].0 != f;
        forall j | 0 <= j < |writes[1..]| ensures writes[1..][j].0 != f {
          assert writes[1..][j] == writes[j + 1];
        }
      }
      WriteAllFrame(d, st', key, writes[1..], k, f);
    }
  }

  /** With distinct field names every write can be read back afterwards. */
  lemma {:induction false} WriteAllReads(d: Drivers.Driver, st: Store, key: string, writes: seq<(string, Value)>)
    requires DistinctFields(writes)
    ensures forall i :: 0 <= i < |writes| ==>
      Drivers.RecordField(d, WriteAll(d, st, key, writes), key, writes[i].0) == Some(Drivers.Stored(d, writes[i].1))
    decreases |writes|
  {
    if |writes| > 0 {
      var st' := Drivers.HSet(d, st, key, writes[0].0, writes[0].1);
      WriteAllReads(d, st', key, writes[1..]);
      forall i | 0 <= i < |writes|
        ensures Drivers.RecordField(d, WriteAll(d, st, key, writes), key, writes[i].0) == Some(Drivers.Stored(d, writes[i].1))
      {
        if i == 0 {
          forall j | 0 <= j < |writes[1..]| ensures writes[1..][j].0 != writes[0].0 {
            assert writes[1..][j] == writes[j + 1];
          }
          WriteAllFrame(d, st', key, writes[1..], Drivers.RecordKey(d, key), writes[0].0);
        } else {
          assert writes[1..][i - 1] == writes[i];
        }
      }
    }
  }

  /** The fields `initialize` writes, in its order. */
  function InitialFields(w: Worker, pid: int): (writes: seq<(string, Value)>)
    ensures DistinctFields(writes)
  {
    [ ("waiting_timeout", w.options.waitingTimeout),
      ("loop_sleep", w.options.loopSleepTime),
      ("pause_sleep_time", w.options.pauseSleepTime),
      ("data_per_tick", w.options.dataPerTick),
      ("action", Str(w.action)),
      ("queue", Str(Queue.GetName(w.queue))),
      ("type", w.options.typeName),
      ("language", Str("nodejs")),
      ("process_id", Num(pid)) ]
  }

  /** The record holds the worker's settings as `initialize` writes them. */
  predicate HoldsSettings(w: Worker, st: Store, pid: int) {
    var d := Driver(w);
    && Info(w, st, "waiting_timeout") == Some(Drivers.Stored(d, w.options.waitingTimeout))
    && Info(w, st, "loop_sleep") == Some(Drivers.Stored(d, w.options.loopSleepTime))
    && Info(w, st, "pause_sleep_time") == Some(Drivers.Stored(d, w.options.pauseSleepTime))
    && Info(w, st, "data_per_tick") == Some(Drivers.Stored(d, w.options.dataPerTick))
    && Info(w, st, "action") == Some(Drivers.Stored(d, Str(w.action)))
    && Info(w, st, "queue") == Some(Drivers.Stored(d, Str(w.queue.name)))
    && Info(w, st, "type") == Some(Drivers.Stored(d, w.options.typeName))
    && Info(w, st, "language") == Some(Drivers.Stored(d, Str("nodejs")))
    && Info(w, st, "process_id") == Some(Drivers.Stored(d, Num(pid)))
  }

  /** `initialize`: once only, initialize the driver and write the settings
      into the record; `pid` is `process.pid`. The queue is not initialized
      here: that happens on its first pop. */
  function Initialize(w: Worker, st: Store, pid: int): (r: (Worker, Store))
    ensures r.0 == w.(initialized := true)
    ensures w.initialized ==> r.1 == st
    ensures !w.initialized ==> HoldsSettings(r.0, r.1, pid)
    ensures !w.initialized ==> r.1.lists == Drivers.Initialize(Driver(w), st).lists
    ensures !w.initialized && Driver(w).Memory? ==> r.1.memoryReady
  {
    if w.initialized then (w, st)
    else
      var st' := Drivers.Initialize(Driver(w), st);
      var fields := InitialFields(w, pid);
      WriteAllReads(Driver(w), st', w.completeName, fields);
      assert fields[0].0 == "waiting_timeout" && fields[1].0 == "loop_sleep" && fields[2].0 == "pause_sleep_time";
      assert fields[3].0 == "data_per_tick" && fields[4].0 == "action" && fields[5].0 == "queue";
      assert fields[6].0 == "type" && fields[7].0 == "language" && fields[8].0 == "process_id";
      (w.(initialized := true), WriteAll(Driver(w), st', w.completeName, fields))
  }

  /** A second `initialize` does nothing. */
  lemma InitializeOnce(w: Worker, st: Store, pid: int, pid': int)
    ensures var r := Initialize(w, st, pid);
      Initialize(r.0, r.1, pid') == r
  {
  }

  /** The two writes every `setStatus` makes: the status and the date it
      changed. */
  function MarkStatus(w: Worker, st: Store, s: Status, now: int): (r: Store)
    ensures Info(w, r, "status") == Some(Drivers.Stored(Driver(w), Str(StatusText(s))))
    ensures Info(w, r, "status_changedate") == Some(Drivers.Stored(Driver(w), Date(now)))
    ensures Info(w, r, "cpt_action") == Info(w, st, "cpt_action")
    ensures Info(w, r, "start_date") == Info(w, st, "start_date")
    ensures r.lists == st.lists && r.sets == st.sets
  {
    var d := Driver(w);
    var s1 := Drivers.HSet(d, st, w.completeName, "status", Str(StatusText(s)));
    Drivers.HSet(d, s1, w.completeName, "status_changedate", Date(now))
  }

  /** `setStatus('WORKING')`: one more action in `cpt_action`. */
  function MarkWorking(w: Worker, st: Store, now: int): (r: Store)
    ensures Info(w, r, "status") == Some(Drivers.Stored(Driver(w), Str("WORKING")))
    ensures Info(w, r, "status_changedate") == Some(Drivers.Stored(Driver(w), Date(now)))
    ensures Info(w, r, "cpt_action") == Drivers.Incremented(Driver(w), Info(w, st, "cpt_action"), 1)
    ensures Info(w, r, "start_date") == Info(w, st, "start_date")
    ensures r.lists == st.lists && r.sets == st.sets
  {
    Drivers.HIncrBy(Driver(w), MarkStatus(w, st, Working, now), w.completeName, "cpt_action", 1)
  }

  /** `setStatus('STARTED')`: the counter back to 0 and a new start date. */
  function MarkStarted(w: Worker, st: Store, now: int): (r: Store)
    ensures Info(w, r, "status") == Some(Drivers.Stored(Driver(w), Str("STARTED")))
    ensures Info(w, r, "status_changedate") == Some(Drivers.Stored(Driver(w), Date(now)))
    ensures Info(w, r, "cpt_action") == Some(Drivers.Stored(Driver(w), Num(0)))
    ensures Info(w, r, "start_date") == Some(Drivers.Stored(Driver(w), Date(now)))
    ensures r.lists == st.lists && r.sets == st.sets
  {
    var d := Driver(w);
    var s3 := Drivers.HSet(d, MarkStatus(w, st, Started, now), w.completeName, "cpt_action", Num(0));
    Drivers.HSet(d, s3, w.completeName, "start_date", Date(now))
  }

  /** `setStatus`: `status`, `status_changedate`, and the action counter
      `cpt_action` (one more on WORKING, reset with `start_date` on STARTED). */
  function SetStatus(w: Worker, st: Store, s: Status, now: int): (r: Store)
    ensures Info(w, r, "status") == Some(Drivers.Stored(Driver(w), Str(StatusText(s))))
    ensures Info(w, r, "status_changedate") == Some(Drivers.Stored(Driver(w), Date(now)))
    ensures s == Working ==> Info(w, r, "cpt_action") == Drivers.Incremented(Driver(w), Info(w, st, "cpt_action"), 1)
    ensures s == Started ==>
      && Info(w, r, "cpt_action") == Some(Drivers.Stored(Driver(w), Num(0)))
      && Info(w, r, "start_date") == Some(Drivers.Stored(Driver(w), Date(now)))
    ensures s != Working && s != Started ==> Info(w, r, "cpt_action") == Info(w, st, "cpt_action")
    ensures s != Started ==> Info(w, r, "start_date") == Info(w, st, "start_date")
    ensures r.lists == st.lists && r.sets == st.sets
  {
    match s
    case Working => MarkWorking(w, st, now)
    case Started => MarkStarted(w, st, now)
    case _ => MarkStatus(w, st, s, now)
  }

  /** `setStatus` writes nothing but those four fields of its own record. */
  lemma SetStatusFrame(w: Worker, st: Store, s: Status, now: int, k: string, f: string)
    requires k != Drivers.RecordKey(Driver(w), w.completeName) ||
      (f != "status" && f != "status_changedate" && f != "cpt_action" && f != "start_date")
    ensures Field(SetStatus(w, st, s, now), k, f) == Field(st, k, f)
  {
  }

  /** The counter as a number: a number field in memory, a 64-bit
      integer's text on a Redis server. */
  function Counter(d: Drivers.Driver, v: Option<Value>): Option<int> {
    match v
    case None => None
    case Some(x) => if d.Memory? then (if x.Num? then Some(x.n) else None) else RedisDriver.StoredInteger(x)
  }

  /** The counter after one status change. On Redis the counter stops at
      2^63 - 1, where HINCRBY refuses to overflow. */
  function Tally(d: Drivers.Driver, n: int, s: Status): int {
    match s
    case Working => if d.Redis? && n >= RedisDriver.MaxInt64 then n else n + 1
    case Started => 0
    case _ => n
  }

  function TallyAll(d: Drivers.Driver, n: int, ss: seq<Status>): int
    decreases |ss|
  {
    if |ss| == 0 then n else TallyAll(d, Tally(d, n, ss[0]), ss[1..])
  }

  /** A count m as the driver can hold it: capped at 2^63 - 1 on Redis. */
  function Saturated(d: Drivers.Driver, m: int): int {
    if d.Redis? && m > RedisDriver.MaxInt64 then RedisDriver.MaxInt64 else m
  }

  /** `setStatus` of each status in turn. */
  function SetStatuses(w: Worker, st: Store, ss: seq<Status>, now: int): (r: Store)
    decreases |ss|
  {
    if |ss| == 0 then st else SetStatuses(w, SetStatus(w, st, ss[0], now), ss[1..], now)
  }

  /** One status change moves the counter as `Tally` says; STARTED makes it
      readable whatever it held before. */
  lemma SetStatusCounts(w: Worker, st: Store, s: Status, now: int)
    requires Counter(Driver(w), Info(w, st, "cpt_action")).Some? || s == Started
    ensures Counter(Driver(w), Info(w, SetStatus(w, st, s, now), "cpt_action")) ==
      Some(Tally(Driver(w), if s == Started then 0 else Counter(Driver(w), Info(w, st, "cpt_action")).value, s))
  {
    var d := Driver(w);
    if s == Started {
      RedisDriver.StoredIntegerReadsBack(0);
    } else if s == Working {
      var n := Counter(d, Info(w, st, "cpt_action")).value;
      if d.Redis? {
        RedisDriver.StoredIntegerReadsBack(n + 1);
      }
    }
  }

  /** `cpt_action` counts the WORKING statuses since the last STARTED: from
      a readable counter n, any run of status changes leaves `TallyAll(n, ss)`. */
  lemma {:induction false} CounterTracksWork(w: Worker, st: Store, ss: seq<Status>, now: int, n: int)
    requires Counter(Driver(w), Info(w, st, "cpt_action")) == Some(n)
    ensures Counter(Driver(w), Info(w, SetStatuses(w, st, ss, now), "cpt_action")) == Some(TallyAll(Driver(w), n, ss))
    decreases |ss|
  {
    if |ss| > 0 {
      SetStatusCounts(w, st, ss[0], now);
      CounterTracksWork(w, SetStatus(w, st, ss[0], now), ss[1..], now, Tally(Driver(w), n, ss[0]));
    }
  }

  lemma StartedCounterZero(w: Worker, st: Store, now: int)
    ensures Counter(Driver(w), Info(w, SetStatus(w, st, Started, now), "cpt_action")) == Some(0)
  {
    SetStatusCounts(w, st, Started, now);
  }

  /** From a counter reading n, k WORKING statuses make it read n + k (capped
      at 2^63 - 1 on Redis); after STARTED (`StartedCounterZero`) it
      therefore counts the actions run. */
  lemma {:induction false} CounterAfterWork(w: Worker, st: Store, n: int, k: nat, now: int)
    requires Counter(Driver(w), Info(w, st, "cpt_action")) == Some(n)
    ensures Counter(Driver(w), Info(w, SetStatuses(w, st, seq(k, _ => Working), now), "cpt_action")) == Some(Saturated(Driver(w), n + k))
  {
    CounterTracksWork(w, st, seq(k, _ => Working), now, n);
    WorkingTally(Driver(w), n, k);
  }

  lemma {:induction false} WorkingTally(d: Drivers.Driver, n: int, k: nat)
    requires d.Memory? || n <= RedisDriver.MaxInt64
    ensures TallyAll(d, n, seq(k, _ => Working)) == Saturated(d, n + k)
    decreases k
  {
    if k > 0 {
      assert seq(k, _ => Working)[1..] == seq(k - 1, _ => Working);
      WorkingTally(d, Tally(d, n, Working), k - 1);
    }
  }

  // ------------------------------------------------------------ the loop

  /** What a step leaves scheduled. `ProcessAfter(None)` is a NaN delay. */
  datatype Next =
    | Close                                         // drivers closed; the loop ends
    | ProcessAfter(delay: Option<int>)              // setTimeout(process, delay)
    | ProcessNow                                    // process again at once
    | Halt                                          // an error; nothing is scheduled
    | Act(batch: seq<Option<string>>, infos: Record) // the action runs on the batch

  /** One step: the worker afterwards, the store, what is scheduled next, and
      the queue pop it issued, if any (`lpop` is `Front`). */
  datatype Tick = Tick(worker: Worker, store: Store, next: Next, popped: Option<(End, nat)>)

  /** A field of the record read by `getInfos`. */
  function Get(infos: Option<Record>, field: string): Option<Value> {
    if infos.Some? && field in infos.value then Some(infos.value[field]) else None
  }

  /** The closing test of `process`: no record, a falsy `end_date`, or a
      current time past it. An end date that does not parse compares false. */
  predicate Expired(infos: Option<Record>, now: int) {
    || infos.None?
    || Get(infos, "end_date").None?
    || !Truthy(Get(infos, "end_date").value)
    || (var t := ParseDate(Get(infos, "end_date").value); t.Some? && now > t.value)
  }

  predicate TruthyItem(item: Option<string>) {
    item.Some? && item.value != ""
  }

  /** `pop`, the callback of the queue pop: an error ends the loop, an empty
      or falsy first entry means WAITING, anything else means WORKING and the
      action on the batch. */
  function AfterPop(w: Worker, st: Store, batch: Queue.Batch, infos: Record, now: int): (r: (Store, Next))
    ensures batch.failed ==> r == (st, Halt)
    ensures !batch.failed && (|batch.items| == 0 || !TruthyItem(batch.items[0])) ==>
      r == (MarkStatus(w, st, Waiting, now), ProcessAfter(Millis(Get(Some(infos), "waiting_timeout"))))
    ensures !batch.failed && |batch.items| > 0 && TruthyItem(batch.items[0]) ==>
      r == (MarkWorking(w, st, now), Act(batch.items, infos))
  {
    if batch.failed then (st, Halt)
    else if |batch.items| == 0 || !TruthyItem(batch.items[0]) then
      (MarkStatus(w, st, Waiting, now), ProcessAfter(Millis(Get(Some(infos), "waiting_timeout"))))
    else (MarkWorking(w, st, now), Act(batch.items, infos))
  }

  /** `process`: close, wait out a pause, or pop `data_per_tick` items, from
      the front for type FIFO and from the back otherwise. */
  function Process(w: Worker, st: Store, now: int, env: seq<RedisDriver.Exec>): (r: Tick)
    ensures var infos := Drivers.HGetAll(Driver(w), st, w.completeName);
      Expired(infos, now) ==> r == Tick(w, st, Close, None)
    ensures var infos := Drivers.HGetAll(Driver(w), st, w.completeName);
      !Expired(infos, now) && Get(infos, "status") == Some(Str("PAUSE")) ==>
        r == Tick(w, st, ProcessAfter(Millis(Get(infos, "pause_sleep_time"))), None)
    ensures var infos := Drivers.HGetAll(Driver(w), st, w.completeName);
      !Expired(infos, now) && Get(infos, "status") != Some(Str("PAUSE")) ==>
        && r.popped == Some((if Get(infos, "type") == Some(Str("FIFO")) then Front else Back, LoopCount(Get(infos, "data_per_tick"))))
        && r.worker.queue == Queue.Initialize(w.queue, st).queue
        && r.store.lists == Queue.Pop(w.queue, st, r.popped.value.0, r.popped.value.1, env).store.lists
        && (var p := Queue.Pop(w.queue, st, r.popped.value.0, r.popped.value.1, env);
            (r.store, r.next) == AfterPop(r.worker, p.store, p.reply, infos.value, now))
        && (r.next.Act? ==> r.next.infos == infos.value && |r.next.batch| > 0 && TruthyItem(r.next.batch[0]))
        && (r.next.Act? || r.next.ProcessAfter? || r.next.Halt?)
  {
    var infos := Drivers.HGetAll(Driver(w), st, w.completeName);
    if Expired(infos, now) then Tick(w, st, Close, None)
    else if Get(infos, "status") == Some(Str("PAUSE")) then
      Tick(w, st, ProcessAfter(Millis(Get(infos, "pause_sleep_time"))), None)
    else
      var end := if Get(infos, "type") == Some(Str("FIFO")) then Front else Back;
      var count := LoopCount(Get(infos, "data_per_tick"));
      var p := Queue.Pop(w.queue, st, end, count, env);
      var w' := w.(queue := p.queue);
      var a := AfterPop(w', p.store, p.reply, infos.value, now);
      Tick(w', a.0, a.1, Some((end, count)))
  }

  /** The `loop_sleep` the completion callback reads. The in-memory driver's
      `hgetall` hands back its stored record object, which every later `hset`
      (an action's `setLoopSleepTime`, say) updates in place, so the callback
      sees the record as it is when the action completes. A Redis reply is a
      copy: the callback sees the record as `process` read it. */
  function LoopSleepAtCompletion(w: Worker, st: Store, infos: Record): (v: Option<Value>)
    ensures Driver(w).Redis? ==> v == Get(Some(infos), "loop_sleep")
    ensures Driver(w).Memory? && w.completeName in st.hashes ==> v == Info(w, st, "loop_sleep")
  {
    var live := Drivers.HGetAll(Driver(w), st, w.completeName);
    if Driver(w).Memory? && live.Some? then Get(live, "loop_sleep") else Get(Some(infos), "loop_sleep")
  }

  /** The action's completion callback: `job complete`, then at once another
      `process` when `loop_sleep` is the number 0, else SLEEPING and a timer. */
  function ActionDone(w: Worker, st: Store, infos: Record, now: int): (r: (Store, Next))
    ensures var sleep := LoopSleepAtCompletion(w, st, infos);
      sleep == Some(Num(0)) ==> r == (st, ProcessNow)
    ensures var sleep := LoopSleepAtCompletion(w, st, infos);
      sleep != Some(Num(0)) ==>
        && r.1 == ProcessAfter(Millis(sleep))
        && Info(w, r.0, "status") == Some(Drivers.Stored(Driver(w), Str("SLEEPING")))
  {
    var sleep := LoopSleepAtCompletion(w, st, infos);
    if sleep == Some(Num(0)) then (st, ProcessNow)
    else (MarkStatus(w, st, Sleeping, now), ProcessAfter(Millis(sleep)))
  }

  /** An action that calls `setLoopSleepTime(t)` before its callback: the
      in-memory worker obeys the new value at once, whatever `process` read;
      the Redis worker goes by the record `process` read. */
  lemma ActionSetsLoopSleep(w: Worker, st: Store, infos: Record, now: int, t: int)
    ensures var st' := Drivers.HSet(Driver(w), st, w.completeName, "loop_sleep", Num(t));
      var r := ActionDone(w, st', infos, now);
      && (Driver(w).Memory? && t == 0 ==> r == (st', ProcessNow))
      && (Driver(w).Memory? && t != 0 ==>
            r.1 == ProcessAfter(Some(t * 1000)) && Info(w, r.0, "status") == Some(Str("SLEEPING")))
      && (Driver(w).Redis? ==> r.1 == ActionDone(w, st, infos, now).1)
  {
    var st' := Drivers.HSet(Driver(w), st, w.completeName, "loop_sleep", Num(t));
    if Driver(w).Memory? {
      assert w.completeName in st'.hashes;
      assert Info(w, st', "loop_sleep") == Some(Num(t));
    }
  }

  /** The end date `start` writes: `expire` seconds after now, or an
      unreadable date for a NaN expiry. */
  function EndDate(expire: Value, now: int): (r: Value)
    ensures Millis(Some(expire)).Some? ==> r == Date(now + Millis(Some(expire)).value)
    ensures Millis(Some(expire)).None? ==> r == NaN
  {
    var ms := Millis(Some(expire));
    if ms.Some? then Date(now + ms.value) else NaN
  }

  /** The writes `start` makes once the worker is initialized: STARTED,
      then `end_date`. */
  function Launch(w: Worker, st: Store, endDate: Value, now: int): (r: Store)
    ensures r.lists == st.lists
    ensures Info(w, r, "end_date") == Some(Drivers.Stored(Driver(w), endDate))
  {
    Drivers.HSet(Driver(w), MarkStarted(w, st, now), w.completeName, "end_date", endDate)
  }

  /** `start`: initialize, STARTED, `end_date` `expire` seconds ahead, then
      `process` on the next tick. What it writes is stated by `StartWrites`,
      what it keeps by `StartFrame`. */
  function Start(w: Worker, st: Store, pid: int, now: int): (r: Tick)
    ensures r.worker == Initialize(w, st, pid).0 && r.next == ProcessNow && r.popped.None?
    ensures w.initialized ==> r.store.lists == st.lists
    ensures !w.initialized ==> r.store.lists == Drivers.Initialize(Driver(w), st).lists
    ensures Millis(Some(w.options.expire)).Some? ==>
      Info(r.worker, r.store, "end_date") == Some(Drivers.Stored(Driver(r.worker), Date(now + Millis(Some(w.options.expire)).value)))
    ensures Millis(Some(w.options.expire)).None? ==> Info(r.worker, r.store, "end_date") == Some(Drivers.Stored(Driver(r.worker), NaN))
  {
    var i := Initialize(w, st, pid);
    Tick(i.0, Launch(i.0, i.1, EndDate(w.options.expire, now), now), ProcessNow, None)
  }

  /** The record after `start`: STARTED and the counter reset... */
  lemma StartWrites(w: Worker, st: Store, pid: int, now: int)
    ensures var r := Start(w, st, pid, now);
      && Info(r.worker, r.store, "status") == Some(Drivers.Stored(Driver(r.worker), Str("STARTED")))
      && Info(r.worker, r.store, "cpt_action") == Some(Drivers.Stored(Driver(r.worker), Num(0)))
  {
    var i := Initialize(w, st, pid);
    var started := MarkStarted(i.0, i.1, now);
    var key := Drivers.RecordKey(Driver(i.0), i.0.completeName);
    assert Field(started, key, "status") == Some(Drivers.Stored(Driver(i.0), Str("STARTED")));
    assert Field(started, key, "cpt_action") == Some(Drivers.Stored(Driver(i.0), Num(0)));
  }

  /** `start` writes nothing but the status fields, the counter, the start
      date and the end date. */
  lemma StartFrame(w: Worker, st: Store, pid: int, now: int, f: string)
    requires f != "status" && f != "status_changedate" && f != "cpt_action" && f != "start_date" && f != "end_date"
    ensures var r := Start(w, st, pid, now); var i := Initialize(w, st, pid);
      Info(r.worker, r.store, f) == Info(i.0, i.1, f)
  {
  }

  /** So after `start` the record holds the settings: written by
      `initialize` on a fresh worker, kept from before otherwise. */
  lemma StartHoldsSettings(w: Worker, st: Store, pid: int, now: int)
    requires !w.initialized || HoldsSettings(w, st, pid)
    ensures HoldsSettings(Start(w, st, pid, now).worker, Start(w, st, pid, now).store, pid)
  {
    StartFrame(w, st, pid, now, "waiting_timeout");
    StartFrame(w, st, pid, now, "loop_sleep");
    StartFrame(w, st, pid, now, "pause_sleep_time");
    StartFrame(w, st, pid, now, "data_per_tick");
    StartFrame(w, st, pid, now, "action");
    StartFrame(w, st, pid, now, "queue");
    StartFrame(w, st, pid, now, "type");
    StartFrame(w, st, pid, now, "language");
    StartFrame(w, st, pid, now, "process_id");
  }

  /** `pause`: initialize, then PAUSE. */
  function Pause(w: Worker, st: Store, pid: int, now: int): (r: (Worker, Store))
    ensures r.0 == Initialize(w, st, pid).0
    ensures Info(r.0, r.1, "status") == Some(Drivers.Stored(Driver(r.0), Str("PAUSE")))
  {
    var i := Initialize(w, st, pid);
    (i.0, MarkStatus(i.0, i.1, Paused, now))
  }

  /** `pause` writes only the status and its change date. */
  lemma PauseFrame(w: Worker, st: Store, pid: int, now: int, f: string)
    requires f != "status" && f != "status_changedate"
    ensures var r := Pause(w, st, pid, now); var i := Initialize(w, st, pid);
      Info(r.0, r.1, f) == Info(i.0, i.1, f)
  {
  }

  /** `stop`: initialize, then `end_date` := now. */
  function Stop(w: Worker, st: Store, pid: int, now: int): (r: (Worker, Store))
    ensures r.0 == Initialize(w, st, pid).0
    ensures Info(r.0, r.1, "end_date") == Some(Drivers.Stored(Driver(r.0), Date(now)))
  {
    var i := Initialize(w, st, pid);
    (i.0, Drivers.HSet(Driver(i.0), i.1, i.0.completeName, "end_date", Date(now)))
  }

  /** `stop` writes only the end date. */
  lemma StopFrame(w: Worker, st: Store, pid: int, now: int, f: string)
    requires f != "end_date"
    ensures var r := Stop(w, st, pid, now); var i := Initialize(w, st, pid);
      Info(r.0, r.1, f) == Info(i.0, i.1, f)
  {
  }

  /** `getCompleteName`: the Redis key of the record; the in-memory driver
      has no such helper. */
  function GetCompleteName(w: Worker): (r: Option<string>)
    ensures r.Some? <==> Driver(w).Redis?
    ensures r.Some? ==> r.value == Drivers.RecordKey(Driver(w), w.completeName)
  {
    match Driver(w)
    case Redis(c) => Some(RedisDriver.CompleteWorkerName(c, w.completeName))
    case Memory => None
  }
}
