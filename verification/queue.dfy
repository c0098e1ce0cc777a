/**
 * The queue façade: a name, a driver and options. Every operation first runs
 * `initialize` (the driver's own initialization, at most once per queue),
 * then delegates to the driver under the queue's name. Unique mode is chosen
 * per call: the driver must define the unique operations AND
 * `options.unique` must be truthy.
 */
module Queue {
  import opened JsValues
  import opened Store
  import Drivers
  import MemoryDriver
  import RedisDriver

  /** `uniqueProperty` is the separate `queue.unique` property that a worker
      assigns; no queue operation reads it. */
  datatype Queue = Queue(
    name: string,
    driver: Drivers.Driver,
    options: map<string, Value>,
    uniqueProperty: bool,
    initialized: bool)

  /** The constructor: `_.defaults(options || {}, {unique: false})`. */
  function New(name: string, driver: Drivers.Driver, options: map<string, Value>): (q: Queue)
    ensures q.name == name && q.driver == driver && !q.initialized && !q.uniqueProperty
    ensures "unique" in q.options
    ensures "unique" in options ==> q.options == options
    ensures "unique" !in options ==> q.options == options["unique" := Bool(false)]
  {
    Queue(name, driver, if "unique" in options then options else options["unique" := Bool(false)], false, false)
  }

  /** The condition `driver.uniquePush && options.unique` of every push and pop. */
  predicate UniqueMode(q: Queue) {
    Drivers.HasUniqueOps(q.driver) && "unique" in q.options && Truthy(q.options["unique"])
  }

  /** A queue built without a `unique` option is never in unique mode. */
  lemma UniqueDefaultsToFalse(name: string, driver: Drivers.Driver, options: map<string, Value>)
    requires "unique" !in options
    ensures !UniqueMode(New(name, driver, options))
  {
  }

  datatype Outcome<T> = Outcome(queue: Queue, store: Store, reply: T)

  /** `initialize`; the reply counts the calls made to `driver.initialize`.
      The queue's own flag only saves the call: a queue value that has not
      seen `initialize` does not reset a driver another holder initialized. */
  function Initialize(q: Queue, st: Store): (r: Outcome<nat>)
    ensures r.queue == q.(initialized := true) && r.reply <= 1
    ensures q.initialized ==> r == Outcome(q, st, 0)
    ensures !q.initialized ==> r.reply == 1 && r.store == Drivers.Initialize(q.driver, st)
    ensures q.driver.Redis? || st.memoryReady ==> r.store == st
    ensures UniqueMode(r.queue) == UniqueMode(q)
  {
    if q.initialized then Outcome(q, st, 0)
    else Outcome(q.(initialized := true), Drivers.Initialize(q.driver, st), 1)
  }

  /** Sequential `initialize` calls reach the driver at most once. */
  lemma InitializeReachesDriverOnce(q: Queue, st: Store)
    ensures var first := Initialize(q, st);
      first.reply + Initialize(first.queue, first.store).reply <= 1
  {
  }

  /** A queue value that never ran `initialize` itself, on a store whose
      in-memory driver is already initialized (by a worker holding the same
      driver, say), pushes without touching any record. */
  lemma StaleQueueKeepsRecords(q: Queue, st: Store, end: End, data: string, env: seq<RedisDriver.Exec>)
    requires q.driver.Memory? && st.memoryReady
    ensures Push(q, st, end, data, env).store.hashes == st.hashes
  {
  }

  /** The list a queue's items live in. */
  function Items(q: Queue, st: Store): seq<string> {
    Drivers.QueueList(q.driver, st, q.name)
  }

  function SetKey(q: Queue): string
    requires q.driver.Redis?
  {
    RedisDriver.UniqueSetName(q.driver.config, q.name)
  }

  /** `rpush` / `lpush`. In plain mode the data always lands at `end`; in
      unique mode it lands there only when its digest is not yet in the set,
      and the reply is 0 otherwise. */
  function Push(q: Queue, st: Store, end: End, data: string, env: seq<RedisDriver.Exec>): (r: Outcome<Option<nat>>)
    ensures r.queue == Initialize(q, st).queue
    ensures var before := Initialize(q, st).store;
      !UniqueMode(q) ==>
        && Items(r.queue, r.store) == Pushed(Items(r.queue, before), end, data)
        && (q.driver.Redis? ==> r.reply == Some(|Items(r.queue, before)| + 1))
    ensures var before := Initialize(q, st).store;
      UniqueMode(q) ==>
        && (Sha256(data) in Members(before, SetKey(q)) ==> r.store == before && r.reply == Some(0))
        && (Sha256(data) !in Members(before, SetKey(q)) ==>
              && Items(r.queue, r.store) == Pushed(Items(r.queue, before), end, data)
              && Members(r.store, SetKey(q)) == Members(before, SetKey(q)) + {Sha256(data)}
              && r.reply == Some(|Items(r.queue, before)| + 1))
  {
    var i := Initialize(q, st);
    if !UniqueMode(q) then
      var p := Drivers.Push(q.driver, i.store, q.name, end, data);
      Outcome(i.queue, p.0, p.1)
    else
      var p := RedisDriver.UniquePush(q.driver.config, i.store, q.name, end, data, env);
      Outcome(i.queue, p.0, Some(p.1))
  }

  /** The worker's `queue.unique` assignment has no effect on a push. */
  lemma UniquePropertyIgnored(q: Queue, st: Store, end: End, data: string, env: seq<RedisDriver.Exec>, b: bool)
    ensures Push(q.(uniqueProperty := b), st, end, data, env).store == Push(q, st, end, data, env).store
    ensures Push(q.(uniqueProperty := b), st, end, data, env).reply == Push(q, st, end, data, env).reply
    ensures Pop(q.(uniqueProperty := b), st, end, 1, env).reply == Pop(q, st, end, 1, env).reply
  {
  }

  datatype Batch = Batch(failed: bool, items: seq<Option<string>>)

  /** `lpop` / `rpop` of `number` items. */
  function Pop(q: Queue, st: Store, end: End, number: int, env: seq<RedisDriver.Exec>): (r: Outcome<Batch>)
    ensures r.queue == Initialize(q, st).queue
    ensures !UniqueMode(q) ==> !r.reply.failed
    ensures !r.reply.failed && number >= 0 && q.driver.Redis? ==> |r.reply.items| == number
    ensures |r.reply.items| <= (if number > 0 then number else 0)
    ensures q.driver.Memory? ==> forall i :: 0 <= i < |r.reply.items| ==> r.reply.items[i].Some? && r.reply.items[i].value != ""
    ensures !UniqueMode(q) ==>
      var p := Drivers.Pop(q.driver, Initialize(q, st).store, q.name, end, number);
      r.store == p.store && r.reply.items == p.items
  {
    var i := Initialize(q, st);
    var p := if !UniqueMode(q) then Drivers.Pop(q.driver, i.store, q.name, end, number)
             else RedisDriver.UniquePop(q.driver.config, i.store, q.name, end, number, env, false);
    Outcome(i.queue, p.store, Batch(p.failed, p.items))
  }

  /** What a pop of `n` takes from the queue's list: the first min(n, len)
      elements in pop order leave the list; Redis answers them one entry per
      round, `null` past the end, and the in-memory driver answers the truthy
      ones. A unique pop takes the same when every round commits and no
      element is the empty string. */
  lemma PopContents(q: Queue, st: Store, end: End, n: nat, env: seq<RedisDriver.Exec>)
    requires UniqueMode(q) ==> RedisDriver.AllCommitted(env) && RedisDriver.NoEmpty(Items(q, st))
    ensures var l := Items(q, Initialize(q, st).store); var k := RedisDriver.Min(n, |l|);
      var r := Pop(q, st, end, n, env);
      && !r.reply.failed
      && Items(r.queue, r.store) == RedisDriver.Drop(l, end, k)
      && (q.driver.Redis? ==> |r.reply.items| == n && forall i :: 0 <= i < n ==>
            r.reply.items[i] == if i < |l| then Some(RedisDriver.PopOrder(l, end, i)) else None)
      && (q.driver.Memory? ==> r.reply.items == Drivers.Wrap(MemoryDriver.Truthful(Drivers.Taken(l, end, k))))
  {
    var i := Initialize(q, st);
    Drivers.PopContents(q.driver, i.store, q.name, end, n);
    if UniqueMode(q) {
      RedisDriver.UniquePopMatchesPlainPop(q.driver.config, i.store, q.name, end, n, env);
    }
  }

  /** `llen`. */
  function LLen(q: Queue, st: Store): (r: Outcome<nat>)
    ensures r.queue == Initialize(q, st).queue
    ensures r.reply == |Items(r.queue, Initialize(q, st).store)|
  {
    var i := Initialize(q, st);
    var n := Drivers.LLen(q.driver, i.store, q.name);
    Outcome(i.queue, n.0, n.1)
  }

  function GetName(q: Queue): (name: string) {
    q.name
  }

  /** `getName` returns the name given to the constructor, whatever was done
      to the queue since. */
  lemma GetNameIsConstructorName(name: string, driver: Drivers.Driver, options: map<string, Value>, st: Store, data: string)
    ensures var q := New(name, driver, options);
      && GetName(q) == name
      && GetName(Push(q, st, Back, data, []).queue) == name
      && GetName(Pop(q, st, Front, 1, []).queue) == name
  {
  }

  /** In unique mode every push and pop keeps the set equal to the digests of
      the list, with no element queued twice. */
  lemma UniqueModeKeepsInvariant(q: Queue, st: Store, end: End, data: string, number: int, env: seq<RedisDriver.Exec>)
    requires UniqueMode(q)
    requires RedisDriver.UniqueInvariant(q.driver.config, st, q.name)
    ensures RedisDriver.UniqueInvariant(q.driver.config, Push(q, st, end, data, env).store, q.name)
    ensures RedisDriver.UniqueInvariant(q.driver.config, Pop(q, st, end, number, env).store, q.name)
  {
    var c := q.driver.config;
    RedisDriver.UniquePushKeepsInvariant(c, st, q.name, end, data, env);
    RedisDriver.UniquePopKeepsInvariant(c, st, q.name, end, if number > 0 then number else 0, env);
  }

  /** In plain mode a one-item pop of a non-empty list hands back the element
      at that end and removes it (the in-memory driver drops an empty-string
      item instead of handing it back). */
  lemma PopOneTakesEnd(q: Queue, st: Store, end: End, env: seq<RedisDriver.Exec>)
    requires q.initialized && !UniqueMode(q) && |Items(q, st)| > 0
    requires q.driver.Memory? ==> EndOf(Items(q, st), end) != ""
    ensures var r := Pop(q, st, end, 1, env);
      && r.reply.items == [Some(EndOf(Items(q, st), end))]
      && Items(q, r.store) == WithoutEnd(Items(q, st), end)
  {
    var l := Items(q, st);
    match q.driver
    case Memory =>
      if end == Front {
        MemoryDriver.LPopRemovesFront(st, q.name, 1);
        assert l[..1] == [l[0]];
        assert MemoryDriver.Truthful([l[0]]) == [l[0]];
      } else {
        MemoryDriver.RPopRemovesBack(st, q.name, 1);
        assert l[|l| - 1..] == [l[|l| - 1]];
        assert MemoryDriver.Reverse([l[|l| - 1]]) == [l[|l| - 1]];
        assert MemoryDriver.Truthful([l[|l| - 1]]) == [l[|l| - 1]];
      }
    case Redis(c) =>
      var key := RedisDriver.CompleteQueueName(c, q.name);
      RedisDriver.PopTimesItems(st, key, end, 1);
      RedisDriver.PopTimesStore(st, key, end, 1);
  }

  /** Plain mode round trip: a push followed by a one-item pop at the same
      end hands the data back and leaves the queue's list as it was. */
  lemma PushThenPopSameEnd(q: Queue, st: Store, end: End, data: string, env: seq<RedisDriver.Exec>)
    requires q.initialized && !UniqueMode(q)
    requires q.driver.Memory? ==> data != ""
    ensures var p := Push(q, st, end, data, env);
      var r := Pop(p.queue, p.store, end, 1, env);
      r.reply.items == [Some(data)] && Items(q, r.store) == Items(q, st)
  {
    var p := Push(q, st, end, data, env);
    var l := Items(q, st);
    assert Items(q, p.store) == Pushed(l, end, data);
    assert EndOf(Pushed(l, end, data), end) == data;
    PopOneTakesEnd(q, p.store, end, env);
    var l' := Pushed(l, end, data);
    assert WithoutEnd(l', end) == l by {
      if end == Front { assert l'[1..] == l; } else { assert l'[..|l|] == l; }
    }
  }

  /** The end-to-end sequence on an empty plain Redis queue: `rpush 'hello'`
      answers 1, `lpush 'world'` answers 2, `llen` is 2, then `lpop` gives
      'world' and `rpop` gives 'hello'. */
  lemma PlainRedisScenario(c: RedisDriver.Config)
    ensures var q0 := New("test", Drivers.Redis(c), map[]);
      var s1 := Push(q0, EmptyStore, Back, "hello", []);
      var s2 := Push(s1.queue, s1.store, Front, "world", []);
      var s3 := LLen(s2.queue, s2.store);
      var s4 := Pop(s3.queue, s3.store, Front, 1, []);
      var s5 := Pop(s4.queue, s4.store, Back, 1, []);
      && s1.reply == Some(1) && s2.reply == Some(2) && s3.reply == 2
      && s4.reply.items == [Some("world")] && s5.reply.items == [Some("hello")]
      && Items(s5.queue, s5.store) == []
  {
    var q0 := New("test", Drivers.Redis(c), map[]);
    var s1 := Push(q0, EmptyStore, Back, "hello", []);
    var q := s1.queue;
    var s2 := Push(q, s1.store, Front, "world", []);
    assert Items(q, s2.store) == ["world", "hello"];
    var s3 := LLen(q, s2.store);
    PopOneTakesEnd(q, s3.store, Front, []);
    var s4 := Pop(q, s3.store, Front, 1, []);
    assert Items(q, s4.store) == ["hello"];
    PopOneTakesEnd(q, s4.store, Back, []);
  }

  /** The same sequence on the in-memory driver: pushes answer nothing, the
      pops return the same items. */
  lemma PlainMemoryScenario()
    ensures var q0 := New("test", Drivers.Memory, map[]);
      var s1 := Push(q0, EmptyStore, Back, "hello", []);
      var s2 := Push(s1.queue, s1.store, Front, "world", []);
      var s3 := LLen(s2.queue, s2.store);
      var s4 := Pop(s3.queue, s3.store, Front, 1, []);
      var s5 := Pop(s4.queue, s4.store, Back, 1, []);
      && s1.reply == None && s3.reply == 2
      && s4.reply.items == [Some("world")] && s5.reply.items == [Some("hello")]
      && Items(s5.queue, s5.store) == []
  {
    var q0 := New("test", Drivers.Memory, map[]);
    var s1 := Push(q0, EmptyStore, Back, "hello", []);
    var q := s1.queue;
    var s2 := Push(q, s1.store, Front, "world", []);
    assert Items(q, s2.store) == ["world", "hello"];
    var s3 := LLen(q, s2.store);
    PopOneTakesEnd(q, s3.store, Front, []);
    var s4 := Pop(q, s3.store, Front, 1, []);
    assert Items(q, s4.store) == ["hello"];
    PopOneTakesEnd(q, s4.store, Back, []);
  }

  /** An empty queue pops one `null` per requested item on Redis... */
  lemma EmptyQueuePops(c: RedisDriver.Config, n: nat)
    ensures var q := New("test", Drivers.Redis(c), map[]);
      forall i :: 0 <= i < n ==> Pop(q, EmptyStore, Front, n, []).reply.items[i] == None
  {
    RedisDriver.PopTimesItems(EmptyStore, RedisDriver.CompleteQueueName(c, "test"), Front, n);
  }

  /** ...and nothing in memory. */
  lemma EmptyMemoryQueuePops(n: nat)
    ensures Pop(New("test", Drivers.Memory, map[]), EmptyStore, Back, n, []).reply.items == []
  {
    var q := New("test", Drivers.Memory, map[]);
    assert !UniqueMode(q);
    var ready := Initialize(q, EmptyStore).store;
    assert List(ready, "test") == [];
    var p := Drivers.Pop(Drivers.Memory, ready, "test", Back, n);
    assert Pop(q, EmptyStore, Back, n, []).reply.items == p.items;
    MemoryDriver.RPopRemovesBack(ready, "test", n);
    assert MemoryDriver.RPop(ready, "test", n).1 == [] by {
      assert MemoryDriver.Truthful(MemoryDriver.Reverse([])) == [];
    }
  }

  /** Unique mode through the queue: a second push of the same value answers 0
      and leaves the store as it was. With only the `queue.unique` property
      set (options left at their default) the queue is NOT in unique mode and
      the duplicate is queued: the replies are 1 and 2. */
  lemma UniqueDuplicatePush(c: RedisDriver.Config)
    ensures var unique := New("test", Drivers.Redis(c), map["unique" := Bool(true)]);
      var p1 := Push(unique, EmptyStore, Back, "first", []);
      var p2 := Push(p1.queue, p1.store, Back, "first", []);
      p1.reply == Some(1) && p2.reply == Some(0) && p2.store == p1.store
    ensures var plain := New("test", Drivers.Redis(c), map[]).(uniqueProperty := true);
      var p1 := Push(plain, EmptyStore, Back, "first", []);
      var p2 := Push(p1.queue, p1.store, Back, "first", []);
      p1.reply == Some(1) && p2.reply == Some(2)
  {
  }
}
