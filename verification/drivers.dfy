/**
 * The storage capability the queue and the worker are written against, with
 * its two implementations. Only the Redis driver defines `uniquePush` and
 * `uniquePop`; the queue checks for them before using unique mode.
 */
module Drivers {
  import opened JsValues
  import opened Store
  import MemoryDriver
  import RedisDriver

  /** A driver value carries no state of its own: the in-memory driver's
      maps and its `initialized` flag are in the `Store`, and the Redis
      driver's connection is not modelled. */
  datatype Driver = Memory | Redis(config: RedisDriver.Config)

  /** `driver.uniquePush` / `driver.uniquePop` are defined. */
  predicate HasUniqueOps(d: Driver) {
    d.Redis?
  }

  /** `initialize`. Only the in-memory driver touches the store: it empties
      it the first time, whoever makes that call. */
  function Initialize(d: Driver, st: Store): (r: Store)
    ensures d.Redis? || st.memoryReady ==> r == st
    ensures d.Memory? ==> r.memoryReady
    ensures d.Memory? && !st.memoryReady ==> r.lists == map[] && r.sets == map[] && r.hashes == map[]
  {
    match d
    case Memory => MemoryDriver.Initialize(st)
    case Redis(_) => st
  }

  /** A second `initialize`, through the same or another holder of the
      driver, changes nothing. */
  lemma InitializeOnce(d: Driver, st: Store)
    ensures Initialize(d, Initialize(d, st)) == Initialize(d, st)
  {
  }

  /** The store key of a worker's record. */
  function RecordKey(d: Driver, worker: string): string {
    match d
    case Memory => worker
    case Redis(c) => RedisDriver.CompleteWorkerName(c, worker)
  }

  /** What a record field reads back as after `hset` of `v`: the value itself
      in memory, its text on a Redis server. */
  function Stored(d: Driver, v: Value): (r: Value)
    ensures v.Str? || v.Date? ==> r == v
  {
    match d
    case Memory => v
    case Redis(_) => AsText(v)
  }

  function RecordField(d: Driver, st: Store, worker: string, field: string): Option<Value> {
    Field(st, RecordKey(d, worker), field)
  }

  function HSet(d: Driver, st: Store, worker: string, field: string, v: Value): (r: Store)
    ensures RecordField(d, r, worker, field) == Some(Stored(d, v))
    ensures forall k, f :: (k != RecordKey(d, worker) || f != field) ==> Field(r, k, f) == Field(st, k, f)
    ensures r.lists == st.lists && r.sets == st.sets && r.memoryReady == st.memoryReady
  {
    match d
    case Memory => MemoryDriver.HSet(st, worker, field, v)
    case Redis(c) => RedisDriver.HSet(c, st, worker, field, v)
  }

  /** The field after `hincrby` by `number`; a Redis error (a field that is
      not a 64-bit integer's text, or an overflow) leaves it as it was, since
      the worker does not wait for the reply. */
  function Incremented(d: Driver, before: Option<Value>, number: int): Option<Value> {
    match d
    case Memory => Some(AddNumber(before, number))
    case Redis(_) =>
      match RedisDriver.IntegerOf(before)
      case Some(n) =>
        if RedisDriver.InInt64(number) && RedisDriver.InInt64(n + number) then Some(Str(IntText(n + number))) else before
      case None => before
  }

  function HIncrBy(d: Driver, st: Store, worker: string, field: string, number: int): (r: Store)
    ensures RecordField(d, r, worker, field) == Incremented(d, RecordField(d, st, worker, field), number)
    ensures forall k, f :: (k != RecordKey(d, worker) || f != field) ==> Field(r, k, f) == Field(st, k, f)
    ensures r.lists == st.lists && r.sets == st.sets
  {
    match d
    case Memory => MemoryDriver.HIncrBy(st, worker, field, number)
    case Redis(c) =>
      match RedisDriver.HIncrBy(c, st, worker, field, number)
      case Ok(st') => st'
      case Error(_) => st
  }

  /** `hgetall`: `None` for a record that does not exist. */
  function HGetAll(d: Driver, st: Store, worker: string): (r: Option<Record>)
    ensures r.Some? ==> forall f :: f in r.value ==> RecordField(d, st, worker, f) == Some(r.value[f])
    ensures forall f :: RecordField(d, st, worker, f).Some? ==> r.Some? && f in r.value
    ensures RecordKey(d, worker) !in st.hashes ==> r.None?
  {
    match d
    case Memory => MemoryDriver.HGetAll(st, worker)
    case Redis(c) => RedisDriver.HGetAll(c, st, worker)
  }

  /** The store key of a queue's list. */
  function ListKey(d: Driver, queue: string): string {
    match d
    case Memory => queue
    case Redis(c) => RedisDriver.CompleteQueueName(c, queue)
  }

  function QueueList(d: Driver, st: Store, queue: string): seq<string> {
    List(st, ListKey(d, queue))
  }

  /** `lpush` / `rpush`: the Redis reply is the new length; the in-memory
      driver answers nothing (`None`). */
  function Push(d: Driver, st: Store, queue: string, end: End, data: string): (r: (Store, Option<nat>))
    ensures QueueList(d, r.0, queue) == Pushed(QueueList(d, st, queue), end, data)
    ensures forall k :: k != ListKey(d, queue) ==> List(r.0, k) == List(st, k)
    ensures r.0.sets == st.sets && r.0.hashes == st.hashes
    ensures d.Redis? ==> r.1 == Some(|QueueList(d, st, queue)| + 1)
    ensures d.Memory? ==> r.1 == None
  {
    match d
    case Memory =>
      (if end == Front then MemoryDriver.LPush(st, queue, data) else MemoryDriver.RPush(st, queue, data), None)
    case Redis(c) =>
      var p := RedisDriver.Push(c, st, queue, end, data);
      (p.0, Some(p.1))
  }

  function Wrap(items: seq<string>): (r: seq<Option<string>>)
    ensures |r| == |items| && forall i :: 0 <= i < |r| ==> r[i] == Some(items[i])
  {
    seq(|items|, i requires 0 <= i < |items| => Some(items[i]))
  }

  /** `lpop` / `rpop` of `number` items. */
  function Pop(d: Driver, st: Store, queue: string, end: End, number: int): (r: PopReply)
    ensures !r.failed
    ensures |r.items| <= (if number > 0 then number else 0)
    ensures d.Redis? && number >= 0 ==> |r.items| == number
    ensures d.Memory? ==> forall i :: 0 <= i < |r.items| ==> r.items[i].Some? && r.items[i].value != ""
    ensures r.store.sets == st.sets && r.store.hashes == st.hashes
  {
    match d
    case Memory =>
      var p := if end == Front then MemoryDriver.LPop(st, queue, number) else MemoryDriver.RPop(st, queue, number);
      PopReply(p.0, false, Wrap(p.1))
    case Redis(c) =>
      var n: nat := if number > 0 then number else 0;
      RedisDriver.PopTimesStore(st, RedisDriver.CompleteQueueName(c, queue), end, n);
      RedisDriver.Pop(c, st, queue, end, number)
  }

  /** The first `k` elements of `l` in pop order. */
  function Taken(l: seq<string>, end: End, k: nat): (r: seq<string>)
    requires k <= |l|
    ensures |r| == k && forall i :: 0 <= i < k ==> r[i] == RedisDriver.PopOrder(l, end, i)
  {
    seq(k, i requires 0 <= i < k => RedisDriver.PopOrder(l, end, i))
  }

  /** What a pop of `n` takes, for either driver: both remove the first
      min(n, len) elements in pop order. Redis answers one entry per round,
      `null` past the end; the in-memory driver answers the truthy elements
      it removed. */
  lemma PopContents(d: Driver, st: Store, queue: string, end: End, n: nat)
    ensures var l := QueueList(d, st, queue); var k := RedisDriver.Min(n, |l|);
      var r := Pop(d, st, queue, end, n);
      && QueueList(d, r.store, queue) == RedisDriver.Drop(l, end, k)
      && (d.Redis? ==> forall i :: 0 <= i < n ==>
            r.items[i] == if i < |l| then Some(RedisDriver.PopOrder(l, end, i)) else None)
      && (d.Memory? ==> r.items == Wrap(MemoryDriver.Truthful(Taken(l, end, k))))
  {
    match d
    case Memory =>
      if end == Front { MemoryPopFront(st, queue, n); } else { MemoryPopBack(st, queue, n); }
    case Redis(c) =>
      RedisDriver.PopTimesItems(st, RedisDriver.CompleteQueueName(c, queue), end, n);
      RedisDriver.PopTimesStore(st, RedisDriver.CompleteQueueName(c, queue), end, n);
  }

  lemma MemoryPopFront(st: Store, queue: string, n: nat)
    ensures var l := List(st, queue); var k := RedisDriver.Min(n, |l|);
      var p := MemoryDriver.LPop(st, queue, n);
      List(p.0, queue) == l[k..] && p.1 == MemoryDriver.Truthful(Taken(l, Front, k))
  {
    var l := List(st, queue);
    var k := RedisDriver.Min(n, |l|);
    MemoryDriver.LPopRemovesFront(st, queue, n);
    assert Taken(l, Front, k) == l[..k];
  }

  lemma MemoryPopBack(st: Store, queue: string, n: nat)
    ensures var l := List(st, queue); var k := RedisDriver.Min(n, |l|);
      var p := MemoryDriver.RPop(st, queue, n);
      List(p.0, queue) == l[..|l| - k] && p.1 == MemoryDriver.Truthful(Taken(l, Back, k))
  {
    var l := List(st, queue);
    var k := RedisDriver.Min(n, |l|);
    MemoryDriver.RPopRemovesBack(st, queue, n);
    MemoryDriver.ReverseReadsBack(l[|l| - k..]);
    assert Taken(l, Back, k) == MemoryDriver.Reverse(l[|l| - k..]);
  }

  /** `llen`; the in-memory driver also creates the list when absent. */
  function LLen(d: Driver, st: Store, queue: string): (r: (Store, nat))
    ensures r.1 == |QueueList(d, st, queue)|
    ensures forall k :: List(r.0, k) == List(st, k)
  {
    match d
    case Memory => MemoryDriver.LLen(st, queue)
    case Redis(c) => (st, RedisDriver.LLen(c, st, queue))
  }
}
