/**
 * The Redis driver without its client: every command is a transition of the
 * `Store`. A Redis server keeps record fields as text, so `hset` stores the
 * text of its value. A WATCH ... MULTI/EXEC round is one step whose outcome
 * (`Exec`) comes from the environment: it commits atomically, is aborted by
 * a concurrent write to a watched key (no effect), or fails (no effect).
 */
module RedisDriver {
  import opened JsValues
  import opened Store

  datatype Config = Config(queuePrefix: string, workerPrefix: string)

  /** The constructor: `config.queuePrefix || 'queue:'` and
      `config.workerPrefix || 'worker:'`, so an empty prefix also falls back. */
  function MakeConfig(queuePrefix: Option<string>, workerPrefix: Option<string>): (c: Config)
    ensures queuePrefix.Some? && queuePrefix.value != "" ==> c.queuePrefix == queuePrefix.value
    ensures queuePrefix.None? || queuePrefix.value == "" ==> c.queuePrefix == "queue:"
    ensures workerPrefix.Some? && workerPrefix.value != "" ==> c.workerPrefix == workerPrefix.value
    ensures workerPrefix.None? || workerPrefix.value == "" ==> c.workerPrefix == "worker:"
  {
    Config(
      if queuePrefix.Some? && queuePrefix.value != "" then queuePrefix.value else "queue:",
      if workerPrefix.Some? && workerPrefix.value != "" then workerPrefix.value else "worker:")
  }

  function CompleteQueueName(c: Config, queue: string): string {
    c.queuePrefix + queue
  }

  function CompleteWorkerName(c: Config, worker: string): string {
    c.workerPrefix + worker
  }

  /** `PREFIX_UNIQUE_SET + SEPARATOR + getCompleteQueueName(queue)`. */
  function UniqueSetName(c: Config, queue: string): string {
    "unique_set" + ":" + CompleteQueueName(c, queue)
  }

  /** With the default configuration the keys are `queue:<name>`,
      `worker:<name>` and `unique_set:queue:<name>`; distinct queue names get
      distinct keys, and no set key is a list key. */
  lemma DefaultKeyNames(a: string, b: string)
    ensures var c := MakeConfig(None, None);
      && CompleteQueueName(c, a) == "queue:" + a
      && CompleteWorkerName(c, a) == "worker:" + a
      && UniqueSetName(c, a) == "unique_set:" + CompleteQueueName(c, a)
      && (CompleteQueueName(c, a) == CompleteQueueName(c, b) ==> a == b)
      && UniqueSetName(c, a) != CompleteQueueName(c, b)
  {
    var c := MakeConfig(None, None);
    if CompleteQueueName(c, a) == CompleteQueueName(c, b) {
      assert CompleteQueueName(c, a)[6..] == a;
      assert CompleteQueueName(c, b)[6..] == b;
    }
    assert UniqueSetName(c, a)[0] == 'u';
    assert CompleteQueueName(c, b)[0] == 'q';
  }

  // ---------------------------------------------------------------- records

  /** `hset`: the field holds the text of `data`. */
  function HSet(c: Config, st: Store, worker: string, key: string, data: Value): (r: Store)
    ensures Field(r, CompleteWorkerName(c, worker), key) == Some(AsText(data))
    ensures r.lists == st.lists && r.sets == st.sets && r.memoryReady == st.memoryReady
  {
    WithField(st, CompleteWorkerName(c, worker), key, AsText(data))
  }

  function HGet(c: Config, st: Store, worker: string, key: string): Option<Value> {
    Field(st, CompleteWorkerName(c, worker), key)
  }

  /** `hgetall`: a missing (or empty) hash reads as `null`. */
  function HGetAll(c: Config, st: Store, worker: string): (r: Option<Record>)
    ensures r.Some? ==> Hash(st, CompleteWorkerName(c, worker)) == r && r.value != map[]
    ensures r.None? ==> Hash(st, CompleteWorkerName(c, worker)) in {None, Some(map[])}
  {
    match Hash(st, CompleteWorkerName(c, worker))
    case None => None
    case Some(rec) => if rec == map[] then None else Some(rec)
  }

  const MinInt64: int := -0x8000_0000_0000_0000
  const MaxInt64: int := 0x7FFF_FFFF_FFFF_FFFF

  predicate InInt64(n: int) {
    MinInt64 <= n <= MaxInt64
  }

  /** The integer a Redis server reads from a stored value: only the
      canonical decimal text of a signed 64-bit integer counts. Leading
      zeros, "-0" and out-of-range digits are not integers to Redis, and a
      date's JSON text never is one. */
  function StoredInteger(v: Value): (r: Option<int>)
    ensures r.Some? ==> InInt64(r.value) && AsText(v) == Str(IntText(r.value))
  {
    match AsText(v)
    case Str(s) =>
      (match ParseInt(s)
       case Some(n) => if IntText(n) == s && InInt64(n) then Some(n) else None
       case None => None)
    case _ => None
  }

  /** A 64-bit integer's own text reads back as that integer, whether it was
      written as text or as a number; beyond 64 bits it reads as no integer. */
  lemma StoredIntegerReadsBack(n: int)
    ensures InInt64(n) ==> StoredInteger(Str(IntText(n))) == Some(n) && StoredInteger(Num(n)) == Some(n)
    ensures !InInt64(n) ==> StoredInteger(Str(IntText(n))) == None && StoredInteger(Num(n)) == None
  {
    IntTextRoundTrip(n);
  }

  /** Spellings JavaScript's `Number` accepts that Redis refuses. */
  lemma NonCanonicalTextRefused()
    ensures StoredInteger(Str("007")) == None
    ensures StoredInteger(Str("-0")) == None
    ensures ToNumber(Str("007")) == Some(7) && ToNumber(Str("-0")) == Some(0)
  {
    var z := "007";
    assert AllDigits(z) && z[..2] == "00" && "00"[..1] == "0" && "0"[..0] == [];
    assert DigitsValue("0") == 0;
    assert DigitsValue("00") == 0;
    assert DigitsValue(z) == 7;
    assert ParseInt(z) == Some(7);
    assert IntText(7) == "7";
    var m := "-0";
    assert m[1..] == "0" && AllDigits(m[1..]);
    assert ParseInt(m) == Some(0);
    assert IntText(0) == "0";
  }

  /** The integer HINCRBY reads from a field: 0 when the field is missing,
      `None` when it does not hold a 64-bit integer's text. */
  function IntegerOf(before: Option<Value>): (r: Option<int>)
    ensures before.None? ==> r == Some(0)
    ensures before.Some? ==> r == StoredInteger(before.value)
  {
    match before
    case None => Some(0)
    case Some(v) => StoredInteger(v)
  }

  /** HINCRBY: a missing field counts as 0. An increment outside 64 bits, a
      field that is not a 64-bit integer's text, or a sum outside 64 bits is
      an error, and nothing changes. */
  function HIncrBy(c: Config, st: Store, worker: string, key: string, number: int): (r: Result<Store>)
    ensures var before := IntegerOf(Field(st, CompleteWorkerName(c, worker), key));
      r.Ok? <==> InInt64(number) && before.Some? && InInt64(before.value + number)
    ensures r.Ok? ==>
      Field(r.value, CompleteWorkerName(c, worker), key) == Some(Str(IntText(IntegerOf(Field(st, CompleteWorkerName(c, worker), key)).value + number)))
    ensures r.Ok? ==> r.value.lists == st.lists && r.value.sets == st.sets && r.value.memoryReady == st.memoryReady
  {
    var name := CompleteWorkerName(c, worker);
    if !InInt64(number) then Error("ERR value is not an integer or out of range")
    else
      match IntegerOf(Field(st, name, key))
      case None => Error("ERR hash value is not an integer")
      case Some(n) =>
        if InInt64(n + number) then Ok(WithField(st, name, key, Str(IntText(n + number))))
        else Error("ERR increment or decrement would overflow")
  }

  /** HINCRBY counts: a missing field becomes `number`, a field holding the
      text of n becomes the text of n + number, and a sum beyond 64 bits is
      refused. */
  lemma HIncrByCounts(c: Config, st: Store, worker: string, key: string, n: int, number: int)
    ensures Field(st, CompleteWorkerName(c, worker), key).None? && InInt64(number) ==>
      var r := HIncrBy(c, st, worker, key, number);
      r.Ok? && Field(r.value, CompleteWorkerName(c, worker), key) == Some(Str(IntText(number)))
    ensures Field(st, CompleteWorkerName(c, worker), key) == Some(Str(IntText(n))) && InInt64(n) && InInt64(number) && InInt64(n + number) ==>
      var r := HIncrBy(c, st, worker, key, number);
      r.Ok? && Field(r.value, CompleteWorkerName(c, worker), key) == Some(Str(IntText(n + number)))
    ensures Field(st, CompleteWorkerName(c, worker), key) == Some(Str(IntText(n))) && !InInt64(n + number) ==>
      HIncrBy(c, st, worker, key, number).Error?
  {
    var before := Field(st, CompleteWorkerName(c, worker), key);
    if before == Some(Str(IntText(n))) {
      StoredIntegerReadsBack(n);
      assert IntegerOf(before) == (if InInt64(n) then Some(n) else None);
    } else if before.None? {
      assert IntegerOf(before) == Some(0);
    }
  }

  // ------------------------------------------------------------------ lists

  /** LPUSH / RPUSH: the reply is the new length. */
  function Push(c: Config, st: Store, queue: string, end: End, data: string): (r: (Store, nat))
    ensures List(r.0, CompleteQueueName(c, queue)) == Pushed(List(st, CompleteQueueName(c, queue)), end, data)
    ensures r.1 == |List(st, CompleteQueueName(c, queue))| + 1
    ensures forall k :: k != CompleteQueueName(c, queue) ==> List(r.0, k) == List(st, k)
    ensures r.0.sets == st.sets && r.0.hashes == st.hashes
  {
    var l := Pushed(List(st, CompleteQueueName(c, queue)), end, data);
    (WithList(st, CompleteQueueName(c, queue), l), |l|)
  }

  function LLen(c: Config, st: Store, queue: string): nat {
    |List(st, CompleteQueueName(c, queue))|
  }

  /** One LPOP / RPOP on `key`: `null` on an empty list. */
  function PopOne(st: Store, key: string, end: End): (Store, Option<string>) {
    var l := List(st, key);
    if |l| == 0 then (st, None) else (WithList(st, key, WithoutEnd(l, end)), Some(EndOf(l, end)))
  }

  /** `pop`: `async.timesSeries(number, ...)` issuing one pop per round. */
  function PopTimes(st: Store, key: string, end: End, n: nat): (r: (Store, seq<Option<string>>))
    ensures |r.1| == n
    decreases n
  {
    if n == 0 then (st, [])
    else
      var first := PopOne(st, key, end);
      var rest := PopTimes(first.0, key, end, n - 1);
      (rest.0, [first.1] + rest.1)
  }

  function Min(a: nat, b: nat): nat {
    if a < b then a else b
  }

  /** The `i`-th element in pop order: from the front for `lpop`, from the
      back for `rpop`. */
  function PopOrder(l: seq<string>, end: End, i: nat): string
    requires i < |l|
  {
    if end == Front then l[i] else l[|l| - 1 - i]
  }

  /** The list after `k` pops at `end`. */
  function Drop(l: seq<string>, end: End, k: nat): seq<string>
    requires k <= |l|
  {
    if end == Front then l[k..] else l[..|l| - k]
  }

  /** One pop then k - 1 more drop as much as k pops from the start. */
  lemma DropStep(l: seq<string>, end: End, n: nat)
    requires n > 0 && |l| > 0
    ensures Drop(WithoutEnd(l, end), end, Min(n - 1, |l| - 1)) == Drop(l, end, Min(n, |l|))
  {
  }

  /** `n` pops remove the first min(n, len) elements in pop order; only
      `key` changes. */
  lemma {:induction false} PopTimesStore(st: Store, key: string, end: End, n: nat)
    ensures List(PopTimes(st, key, end, n).0, key) == Drop(List(st, key), end, Min(n, |List(st, key)|))
    ensures forall k :: k != key ==> List(PopTimes(st, key, end, n).0, k) == List(st, k)
    ensures PopTimes(st, key, end, n).0.sets == st.sets && PopTimes(st, key, end, n).0.hashes == st.hashes
    decreases n
  {
    var l := List(st, key);
    if n > 0 {
      var first := PopOne(st, key, end);
      PopTimesStore(first.0, key, end, n - 1);
      assert PopTimes(st, key, end, n).0 == PopTimes(first.0, key, end, n - 1).0;
      if |l| > 0 {
        assert List(first.0, key) == WithoutEnd(l, end);
        DropStep(l, end, n);
      } else {
        assert first.0 == st;
      }
    } else {
      assert Drop(l, end, 0) == l;
    }
  }

  /** `n` pops return exactly `n` entries: the first min(n, len) elements in
      pop order, then one `null` per pop past the end. */
  lemma {:induction false} PopTimesItems(st: Store, key: string, end: End, n: nat)
    ensures forall i :: 0 <= i < n ==>
      PopTimes(st, key, end, n).1[i] == if i < |List(st, key)| then Some(PopOrder(List(st, key), end, i)) else None
    decreases n
  {
    var l := List(st, key);
    if n > 0 {
      var first := PopOne(st, key, end);
      PopTimesItems(first.0, key, end, n - 1);
      var items := PopTimes(st, key, end, n).1;
      var rest := PopTimes(first.0, key, end, n - 1).1;
      assert items == [first.1] + rest;
      forall i | 0 <= i < n
        ensures items[i] == if i < |l| then Some(PopOrder(l, end, i)) else None
      {
        if i > 0 {
          assert items[i] == rest[i - 1];
          if |l| > 0 {
            var l' := WithoutEnd(l, end);
            assert List(first.0, key) == l';
            if i < |l| {
              assert PopOrder(l', end, i - 1) == PopOrder(l, end, i);
            }
          }
        }
      }
    }
  }

  /** `lpop` / `rpop` of the driver. */
  function Pop(c: Config, st: Store, queue: string, end: End, number: int): (r: PopReply)
    ensures !r.failed
    ensures number >= 0 ==> |r.items| == number
    ensures number < 0 ==> r.items == [] && r.store == st
  {
    var n: nat := if number > 0 then number else 0;
    var p := PopTimes(st, CompleteQueueName(c, queue), end, n);
    PopReply(p.0, false, p.1)
  }

  // ------------------------------------------------------------- unique mode

  /** How the environment answers one WATCH ... EXEC round. */
  datatype Exec = Committed | Aborted | Failed

  /** The outcome of the next round; once the environment's answers run out,
      every later round commits (contention is finite). */
  function NextExec(env: seq<Exec>): Exec {
    if |env| == 0 then Committed else env[0]
  }

  function Later(env: seq<Exec>): seq<Exec> {
    if |env| == 0 then [] else env[1..]
  }

  /** The digests of the elements of a list. */
  function Digests(l: seq<string>): (r: set<Digest>)
    ensures forall d :: d in r <==> d.text in l
  {
    set x | x in l :: Sha256(x)
  }

  predicate Distinct(l: seq<string>) {
    forall i, j :: 0 <= i < j < |l| ==> l[i] != l[j]
  }

  /** The unique-mode invariant of a queue: the set holds exactly the digests
      of the list's elements, and no element is queued twice. */
  predicate UniqueInvariant(c: Config, st: Store, queue: string) {
    var l := List(st, CompleteQueueName(c, queue));
    && Members(st, UniqueSetName(c, queue)) == Digests(l)
    && Distinct(l)
  }

  datatype PushAttempt = Done(store: Store, reply: nat) | Retry

  /** `transactionnalPush` as written: SISMEMBER on the digest; a member
      answers 0 with no write; otherwise one MULTI holding SADD and the push,
      whose reply is the push's (the new length). An error is handed to the
      series, which retries. An EXEC aborted by the WATCH answers `null`
      replies, and reading `replies[1]` of `null` throws: `None`, the
      callback is never reached and nothing is retried. */
  function TransactionalPushAsWritten(c: Config, st: Store, queue: string, end: End, data: string, e: Exec): (r: Option<PushAttempt>)
    ensures r.None? <==> e == Aborted && Sha256(data) !in Members(st, UniqueSetName(c, queue))
    ensures e != Aborted ==> r == Some(TransactionalPush(c, st, queue, end, data, e))
  {
    var setKey := UniqueSetName(c, queue);
    if e == Failed then Some(Retry)
    else if Sha256(data) in Members(st, setKey) then Some(Done(st, 0))
    else if e == Aborted then None
    else
      var pushed := Push(c, st, queue, end, data);
      Some(Done(WithMembers(pushed.0, setKey, Members(st, setKey) + {Sha256(data)}), pushed.1))
  }

  /** `transactionnalPush` as intended: a round whose EXEC the WATCH aborted
      is lost and retried, like one that failed. */
  function TransactionalPush(c: Config, st: Store, queue: string, end: End, data: string, e: Exec): (r: PushAttempt)
    ensures e == Committed ==> r.Done?
    ensures r.Done? && r.reply == 0 ==> r.store == st
    ensures r.Retry? <==> e == Failed || (e == Aborted && Sha256(data) !in Members(st, UniqueSetName(c, queue)))
  {
    var setKey := UniqueSetName(c, queue);
    if e == Failed then Retry
    else if Sha256(data) in Members(st, setKey) then Done(st, 0)
    else if e == Aborted then Retry
    else
      var pushed := Push(c, st, queue, end, data);
      Done(WithMembers(pushed.0, setKey, Members(st, setKey) + {Sha256(data)}), pushed.1)
  }

  /** `uniquePush` as written: failed rounds are retried; an aborted round
      that reached its MULTI throws, and the push never answers (`None`). */
  function UniquePushAsWritten(c: Config, st: Store, queue: string, end: End, data: string, env: seq<Exec>): (r: Option<(Store, nat)>)
    ensures (forall i :: 0 <= i < |env| ==> env[i] != Aborted) ==> r == Some(UniquePush(c, st, queue, end, data, env))
    ensures Sha256(data) in Members(st, UniqueSetName(c, queue)) ==> r == Some((st, 0))
    decreases |env|
  {
    match TransactionalPushAsWritten(c, st, queue, end, data, NextExec(env))
    case None => None
    case Some(Done(st', n)) => Some((st', n))
    case Some(Retry) => UniquePushAsWritten(c, st, queue, end, data, Later(env))
  }

  /** `uniquePush` as intended: any failed or aborted round is retried from
      the membership check until one completes. The outcome never depends on
      how many rounds were lost: it is that of a single committed round. */
  function UniquePush(c: Config, st: Store, queue: string, end: End, data: string, env: seq<Exec>): (r: (Store, nat))
    ensures var setKey := UniqueSetName(c, queue); var listKey := CompleteQueueName(c, queue);
      && (Sha256(data) in Members(st, setKey) ==> r == (st, 0))
      && (Sha256(data) !in Members(st, setKey) ==>
            && List(r.0, listKey) == Pushed(List(st, listKey), end, data)
            && Members(r.0, setKey) == Members(st, setKey) + {Sha256(data)}
            && r.1 == |List(st, listKey)| + 1
            && (forall k :: k != listKey ==> List(r.0, k) == List(st, k))
            && (forall k :: k != setKey ==> Members(r.0, k) == Members(st, k))
            && r.0.hashes == st.hashes)
    decreases |env|
  {
    match TransactionalPush(c, st, queue, end, data, NextExec(env))
    case Done(st', n) => (st', n)
    case Retry => UniquePush(c, st, queue, end, data, Later(env))
  }

  /** Lost rounds are invisible: any environment gives the uncontended result. */
  lemma {:induction false} UniquePushRetryTransparent(c: Config, st: Store, queue: string, end: End, data: string, env: seq<Exec>)
    ensures UniquePush(c, st, queue, end, data, env) == UniquePush(c, st, queue, end, data, [])
    decreases |env|
  {
    if TransactionalPush(c, st, queue, end, data, NextExec(env)).Retry? {
      UniquePushRetryTransparent(c, st, queue, end, data, Later(env));
    }
  }

  /** One aborted EXEC on a fresh value: the push as written never answers,
      the intended one retries and answers 1. */
  lemma AsWrittenAbortedPushThrows(c: Config)
    ensures UniquePushAsWritten(c, EmptyStore, "q", Back, "a", [Aborted]).None?
    ensures UniquePush(c, EmptyStore, "q", Back, "a", [Aborted]).1 == 1
  {
  }

  /** A unique push keeps the invariant; under it, the reply is 0 exactly when
      the data is already queued. */
  lemma UniquePushKeepsInvariant(c: Config, st: Store, queue: string, end: End, data: string, env: seq<Exec>)
    requires UniqueInvariant(c, st, queue)
    ensures UniqueInvariant(c, UniquePush(c, st, queue, end, data, env).0, queue)
    ensures UniquePush(c, st, queue, end, data, env).1 == 0 <==> data in List(st, CompleteQueueName(c, queue))
  {
    var l := List(st, CompleteQueueName(c, queue));
    if data !in l {
      var l' := Pushed(l, end, data);
      assert Digests(l') == Digests(l) + {Sha256(data)};
      forall i, j | 0 <= i < j < |l'| ensures l'[i] != l'[j] {
        if end == Front {
          if i == 0 { assert l'[j] == l[j - 1]; } else { assert l'[i] == l[i - 1] && l'[j] == l[j - 1]; }
        } else {
          if j == |l| { assert l'[i] == l[i]; } else { assert l'[i] == l[i] && l'[j] == l[j]; }
        }
      }
    }
  }

  datatype PopAttempt = Took(store: Store, item: Option<string>) | PopFailed

  /** One uncommitted-or-committed transactional pop that reads `read` (the
      element whose digest it removes) and pops at `end`. */
  function PopRound(c: Config, st: Store, queue: string, end: End, e: Exec, read: Option<string>): PopAttempt {
    var setKey := UniqueSetName(c, queue);
    var listKey := CompleteQueueName(c, queue);
    var l := List(st, listKey);
    if e == Failed then PopFailed
    else if read.None? || read.value == "" then Took(st, None)
    else if e == Aborted || |l| == 0 then Took(st, None)
    else
      var x := EndOf(l, end);
      var st' := WithMembers(WithList(st, listKey, WithoutEnd(l, end)), setKey, Members(st, setKey) - {Sha256(read.value)});
      Took(st', if x == "" then None else Some(x))
  }

  /** LINDEX key -1: the tail, `null` on an empty list. */
  function Tail(l: seq<string>): Option<string> {
    if |l| == 0 then None else Some(l[|l| - 1])
  }

  /** `transactionnalPop` as written: it always reads the TAIL and removes the
      tail's digest, whichever end it pops. */
  function TransactionalPopAsWritten(c: Config, st: Store, queue: string, end: End, e: Exec): (r: PopAttempt)
    ensures e == Failed <==> r.PopFailed?
    ensures var l := List(st, CompleteQueueName(c, queue));
      r.Took? && r.item.Some? ==> |l| > 0 && r.item.value == EndOf(l, end)
  {
    PopRound(c, st, queue, end, e, Tail(List(st, CompleteQueueName(c, queue))))
  }

  /** The element at the end a pop takes, `null` on an empty list. */
  function AtEnd(l: seq<string>, end: End): Option<string> {
    if |l| == 0 then None else Some(EndOf(l, end))
  }

  /** `transactionnalPop` as intended: it reads the element at the end it pops
      (LINDEX 0 for `lpop`, -1 for `rpop`) and removes that element's digest. */
  function TransactionalPop(c: Config, st: Store, queue: string, end: End, e: Exec): (r: PopAttempt)
    ensures e == Failed <==> r.PopFailed?
    ensures var l := List(st, CompleteQueueName(c, queue));
      r.Took? && r.item.Some? ==>
        && |l| > 0 && r.item.value == EndOf(l, end)
        && List(r.store, CompleteQueueName(c, queue)) == WithoutEnd(l, end)
        && Members(r.store, UniqueSetName(c, queue)) == Members(st, UniqueSetName(c, queue)) - {Sha256(EndOf(l, end))}
    ensures r.Took? && r.item.None? ==> r.store == st
  {
    PopRound(c, st, queue, end, e, AtEnd(List(st, CompleteQueueName(c, queue)), end))
  }

  /** For `rpop` the tail IS the popped element: as written and as intended agree. */
  lemma AsWrittenAgreesOnBack(c: Config, st: Store, queue: string, e: Exec)
    ensures TransactionalPopAsWritten(c, st, queue, Back, e) == TransactionalPop(c, st, queue, Back, e)
  {
  }

  /** With `lpop` on a two-element unique queue the code as written pops the
      head but drops the tail's digest: the invariant breaks, the popped value
      can never be queued again, and the remaining one could be queued twice. */
  lemma AsWrittenLpopLeavesStaleDigest()
    ensures var c := MakeConfig(None, None);
      var st := WithMembers(WithList(EmptyStore, "queue:q", ["a", "b"]), "unique_set:queue:q", {Sha256("a"), Sha256("b")});
      && UniqueInvariant(c, st, "q")
      && TransactionalPopAsWritten(c, st, "q", Front, Committed).Took?
      && var after := TransactionalPopAsWritten(c, st, "q", Front, Committed).store;
      && TransactionalPopAsWritten(c, st, "q", Front, Committed).item == Some("a")
      && List(after, "queue:q") == ["b"]
      && Members(after, "unique_set:queue:q") == {Sha256("a")}
      && !UniqueInvariant(c, after, "q")
      && UniquePush(c, after, "q", Back, "a", []).1 == 0
      && UniquePush(c, after, "q", Back, "b", []).1 == 2
  {
    var c := MakeConfig(None, None);
    var st := WithMembers(WithList(EmptyStore, "queue:q", ["a", "b"]), "unique_set:queue:q", {Sha256("a"), Sha256("b")});
    assert CompleteQueueName(c, "q") == "queue:q";
    assert UniqueSetName(c, "q") == "unique_set:queue:q";
    assert Digests(["a", "b"]) == {Sha256("a"), Sha256("b")};
    var after := TransactionalPopAsWritten(c, st, "q", Front, Committed).store;
    assert List(after, "queue:q") == ["b"];
    assert Members(after, "unique_set:queue:q") == {Sha256("a")};
    assert Sha256("b") in Digests(["b"]);
  }

  /** The round `atomicUniquePop` runs: the code as written, or the
      intended one that removes the popped element's digest. */
  function PopRoundOf(c: Config, st: Store, queue: string, end: End, e: Exec, asWritten: bool): PopAttempt {
    if asWritten then TransactionalPopAsWritten(c, st, queue, end, e) else TransactionalPop(c, st, queue, end, e)
  }

  /** `uniquePop`: `number` transactional pops in series; a failed round stops
      the series and reports the error. */
  function UniquePopTimes(c: Config, st: Store, queue: string, end: End, n: nat, env: seq<Exec>, asWritten: bool): (r: PopReply)
    ensures !r.failed ==> |r.items| == n
    ensures |r.items| <= n
    ensures (forall i :: 0 <= i < |env| ==> env[i] != Failed) ==> !r.failed
    decreases n
  {
    if n == 0 then PopReply(st, false, [])
    else
      match PopRoundOf(c, st, queue, end, NextExec(env), asWritten)
      case PopFailed => PopReply(st, true, [])
      case Took(st', item) =>
        var rest := UniquePopTimes(c, st', queue, end, n - 1, Later(env), asWritten);
        PopReply(rest.store, rest.failed, [item] + rest.items)
  }

  function UniquePop(c: Config, st: Store, queue: string, end: End, number: int, env: seq<Exec>, asWritten: bool): (r: PopReply)
    ensures number >= 0 && !r.failed ==> |r.items| == number
  {
    UniquePopTimes(c, st, queue, end, if number > 0 then number else 0, env, asWritten)
  }

  /** For `rpop` the whole series as written is the series as intended. */
  lemma {:induction false} AsWrittenSeriesAgreesOnBack(c: Config, st: Store, queue: string, n: nat, env: seq<Exec>)
    ensures UniquePopTimes(c, st, queue, Back, n, env, true) == UniquePopTimes(c, st, queue, Back, n, env, false)
    decreases n
  {
    if n > 0 {
      AsWrittenAgreesOnBack(c, st, queue, NextExec(env));
      var t := TransactionalPop(c, st, queue, Back, NextExec(env));
      if t.Took? {
        AsWrittenSeriesAgreesOnBack(c, t.store, queue, n - 1, Later(env));
      }
    }
  }

  /** One pop, committed or not, keeps the unique invariant. */
  lemma TransactionalPopKeepsInvariant(c: Config, st: Store, queue: string, end: End, e: Exec)
    requires UniqueInvariant(c, st, queue)
    requires TransactionalPop(c, st, queue, end, e).Took?
    ensures UniqueInvariant(c, TransactionalPop(c, st, queue, end, e).store, queue)
  {
    var l := List(st, CompleteQueueName(c, queue));
    var r := TransactionalPop(c, st, queue, end, e);
    if r.store != st {
      var x := EndOf(l, end);
      var l' := WithoutEnd(l, end);
      assert List(r.store, CompleteQueueName(c, queue)) == l';
      assert Members(r.store, UniqueSetName(c, queue)) == Digests(l) - {Sha256(x)};
      assert x !in l' by {
        if end == Front {
          forall j | 0 <= j < |l'| ensures l'[j] != x { assert l'[j] == l[j + 1]; }
        } else {
          forall j | 0 <= j < |l'| ensures l'[j] != x { assert l'[j] == l[j]; }
        }
      }
      assert Digests(l') == Digests(l) - {Sha256(x)} by {
        forall d ensures d in Digests(l') <==> d in Digests(l) - {Sha256(x)} {
          assert d.text in l <==> d.text in l' || d.text == x;
        }
      }
      forall i, j | 0 <= i < j < |l'| ensures l'[i] != l'[j] {
        if end == Front { assert l'[i] == l[i + 1] && l'[j] == l[j + 1]; }
        else { assert l'[i] == l[i] && l'[j] == l[j]; }
      }
    }
  }

  /** With the intended round, a unique pop of any length, under any
      contention, keeps the invariant. */
  lemma {:induction false} UniquePopKeepsInvariant(c: Config, st: Store, queue: string, end: End, n: nat, env: seq<Exec>)
    requires UniqueInvariant(c, st, queue)
    ensures UniqueInvariant(c, UniquePopTimes(c, st, queue, end, n, env, false).store, queue)
    decreases n
  {
    if n > 0 {
      var t := TransactionalPop(c, st, queue, end, NextExec(env));
      if t.Took? {
        TransactionalPopKeepsInvariant(c, st, queue, end, NextExec(env));
        UniquePopKeepsInvariant(c, t.store, queue, end, n - 1, Later(env));
      }
    }
  }

  /** The code as written keeps the invariant for `rpop` series only
      (`AsWrittenLpopLeavesStaleDigest` breaks it for `lpop`). */
  lemma AsWrittenRpopKeepsInvariant(c: Config, st: Store, queue: string, n: nat, env: seq<Exec>)
    requires UniqueInvariant(c, st, queue)
    ensures UniqueInvariant(c, UniquePopTimes(c, st, queue, Back, n, env, true).store, queue)
  {
    AsWrittenSeriesAgreesOnBack(c, st, queue, n, env);
    UniquePopKeepsInvariant(c, st, queue, Back, n, env);
  }

  /** Every WATCH ... EXEC round of the environment commits. */
  predicate AllCommitted(env: seq<Exec>) {
    forall i :: 0 <= i < |env| ==> env[i] == Committed
  }

  /** No element of the list is the empty (falsy) string. */
  predicate NoEmpty(l: seq<string>) {
    forall i :: 0 <= i < |l| ==> l[i] != ""
  }

  /** A pop at either end keeps a list free of empty strings. */
  lemma WithoutEndNoEmpty(l: seq<string>, end: End)
    requires |l| > 0 && NoEmpty(l)
    ensures NoEmpty(WithoutEnd(l, end)) && EndOf(l, end) != ""
  {
    var l' := WithoutEnd(l, end);
    forall j | 0 <= j < |l'| ensures l'[j] != "" {
      if end == Front { assert l'[j] == l[j + 1]; } else { assert l'[j] == l[j]; }
    }
  }

  /** Plain pops read nothing but the list at `key`. */
  lemma PopTimesSameList(st1: Store, st2: Store, key: string, end: End, n: nat)
    requires List(st1, key) == List(st2, key)
    ensures PopTimes(st1, key, end, n).1 == PopTimes(st2, key, end, n).1
    ensures List(PopTimes(st1, key, end, n).0, key) == List(PopTimes(st2, key, end, n).0, key)
  {
    PopTimesItems(st1, key, end, n);
    PopTimesItems(st2, key, end, n);
    PopTimesStore(st1, key, end, n);
    PopTimesStore(st2, key, end, n);
  }

  /** When every round commits and no element is the empty string, the
      intended unique pop hands back exactly what `n` plain pops do and
      leaves the same list: the transaction only adds the digest removal. */
  lemma {:induction false} UniquePopMatchesPlainPop(c: Config, st: Store, queue: string, end: End, n: nat, env: seq<Exec>)
    requires AllCommitted(env)
    requires NoEmpty(List(st, CompleteQueueName(c, queue)))
    ensures var u := UniquePopTimes(c, st, queue, end, n, env, false);
      var p := PopTimes(st, CompleteQueueName(c, queue), end, n);
      && !u.failed
      && u.items == p.1
      && List(u.store, CompleteQueueName(c, queue)) == List(p.0, CompleteQueueName(c, queue))
    decreases n
  {
    if n > 0 {
      var key := CompleteQueueName(c, queue);
      var l := List(st, key);
      LaterAllCommitted(env);
      var t := TransactionalPop(c, st, queue, end, Committed);
      var first := PopOne(st, key, end);
      CommittedRoundIsPopOne(c, st, queue, end);
      if |l| > 0 {
        WithoutEndNoEmpty(l, end);
      }
      UniquePopMatchesPlainPop(c, t.store, queue, end, n - 1, Later(env));
      PopTimesSameList(t.store, first.0, key, end, n - 1);
      var rest := UniquePopTimes(c, t.store, queue, end, n - 1, Later(env), false);
      assert UniquePopTimes(c, st, queue, end, n, env, false) == PopReply(rest.store, rest.failed, [t.item] + rest.items);
      var plain := PopTimes(first.0, key, end, n - 1);
      assert PopTimes(st, key, end, n) == (plain.0, [first.1] + plain.1);
      assert t.item == first.1 && rest.items == plain.1;
      assert List(rest.store, key) == List(plain.0, key);
    }
  }

  /** The first round of an all-committed environment commits, and so do
      the later ones. */
  lemma LaterAllCommitted(env: seq<Exec>)
    requires AllCommitted(env)
    ensures NextExec(env) == Committed && AllCommitted(Later(env))
  {
    forall i | 0 <= i < |Later(env)| ensures Later(env)[i] == Committed {
      assert Later(env)[i] == env[i + 1];
    }
  }

  /** One committed round on a list free of empty strings pops what a plain
      pop does and leaves the same list. */
  lemma CommittedRoundIsPopOne(c: Config, st: Store, queue: string, end: End)
    requires NoEmpty(List(st, CompleteQueueName(c, queue)))
    ensures var t := TransactionalPop(c, st, queue, end, Committed);
      var first := PopOne(st, CompleteQueueName(c, queue), end);
      && t.Took? && t.item == first.1
      && List(t.store, CompleteQueueName(c, queue)) == List(first.0, CompleteQueueName(c, queue))
  {
    var l := List(st, CompleteQueueName(c, queue));
    if |l| > 0 {
      WithoutEndNoEmpty(l, end);
    }
  }

  /** After a unique push and a pop of that single value the digest is gone,
      so the value can be queued again. */
  lemma PushPopClearsDigest(c: Config, st: Store, queue: string, pushEnd: End, popEnd: End, data: string)
    requires List(st, CompleteQueueName(c, queue)) == [] && Members(st, UniqueSetName(c, queue)) == {}
    requires data != ""
    ensures var pushed := UniquePush(c, st, queue, pushEnd, data, []);
      var popped := UniquePopTimes(c, pushed.0, queue, popEnd, 1, [], false);
      && pushed.1 == 1
      && popped.items == [Some(data)]
      && Sha256(data) !in Members(popped.store, UniqueSetName(c, queue))
      && List(popped.store, CompleteQueueName(c, queue)) == []
      && UniquePush(c, popped.store, queue, pushEnd, data, []).1 == 1
  {
    var pushed := UniquePush(c, st, queue, pushEnd, data, []);
    assert List(pushed.0, CompleteQueueName(c, queue)) == [data];
    var t := TransactionalPop(c, pushed.0, queue, popEnd, Committed);
    assert t.item == Some(data);
  }

  /** Three distinct `lpush`es then a duplicate reply 1, 2, 3, 0 and leave
      the three values newest-first, with their three digests. */
  lemma UniqueLpushScenario(c: Config)
    ensures var q := "test";
      var p1 := UniquePush(c, EmptyStore, q, Front, "first", []);
      var p2 := UniquePush(c, p1.0, q, Front, "second", []);
      var p3 := UniquePush(c, p2.0, q, Front, "third", []);
      var p4 := UniquePush(c, p3.0, q, Front, "third", []);
      && [p1.1, p2.1, p3.1, p4.1] == [1, 2, 3, 0]
      && List(p4.0, CompleteQueueName(c, q)) == ["third", "second", "first"]
      && Members(p4.0, UniqueSetName(c, q)) == {Sha256("first"), Sha256("second"), Sha256("third")}
  {
    var q := "test";
    var lk := CompleteQueueName(c, q);
    var sk := UniqueSetName(c, q);
    var p1 := UniquePush(c, EmptyStore, q, Front, "first", []);
    assert List(p1.0, lk) == ["first"] && Members(p1.0, sk) == {Sha256("first")};
    var p2 := UniquePush(c, p1.0, q, Front, "second", []);
    assert List(p2.0, lk) == ["second", "first"];
    var p3 := UniquePush(c, p2.0, q, Front, "third", []);
    assert List(p3.0, lk) == ["third", "second", "first"];
    assert Members(p3.0, sk) == {Sha256("first"), Sha256("second"), Sha256("third")};
    var p4 := UniquePush(c, p3.0, q, Front, "third", []);
    assert p4 == (p3.0, 0);
  }

  /** With the intended round, `lpop` of 4 from those three values returns
      them newest-first then `null`, leaving an empty list and an empty set. */
  lemma UniqueLpopScenario(c: Config, st: Store)
    requires List(st, CompleteQueueName(c, "test")) == ["third", "second", "first"]
    requires Members(st, UniqueSetName(c, "test")) == {Sha256("first"), Sha256("second"), Sha256("third")}
    ensures var popped := UniquePopTimes(c, st, "test", Front, 4, [], false);
      && popped.items == [Some("third"), Some("second"), Some("first"), None]
      && List(popped.store, CompleteQueueName(c, "test")) == []
      && Members(popped.store, UniqueSetName(c, "test")) == {}
  {
    var q := "test";
    var lk := CompleteQueueName(c, q);
    var sk := UniqueSetName(c, q);
    var t1 := TransactionalPop(c, st, q, Front, Committed);
    assert List(t1.store, lk) == ["second", "first"] && t1.item == Some("third");
    var t2 := TransactionalPop(c, t1.store, q, Front, Committed);
    assert List(t2.store, lk) == ["first"] && t2.item == Some("second");
    var t3 := TransactionalPop(c, t2.store, q, Front, Committed);
    assert List(t3.store, lk) == [] && t3.item == Some("first");
    assert Members(t3.store, sk) == {};
    var t4 := TransactionalPop(c, t3.store, q, Front, Committed);
    assert t4 == Took(t3.store, None);
    var r3 := UniquePopTimes(c, t3.store, q, Front, 1, [], false);
    assert r3.items == [None];
    var r2 := UniquePopTimes(c, t2.store, q, Front, 2, [], false);
    assert r2.items == [Some("first"), None];
    var r1 := UniquePopTimes(c, t1.store, q, Front, 3, [], false);
    assert r1.items == [Some("second"), Some("first"), None];
  }

  /** The same `lpop` of 4 as written: the same items and an empty list, but
      every round drops the digest of the tail, "first", so the digests of
      "second" and "third" stay behind and those values can never be queued
      again. */
  lemma AsWrittenLpopScenario(c: Config, st: Store)
    requires List(st, CompleteQueueName(c, "test")) == ["third", "second", "first"]
    requires Members(st, UniqueSetName(c, "test")) == {Sha256("first"), Sha256("second"), Sha256("third")}
    ensures var popped := UniquePopTimes(c, st, "test", Front, 4, [], true);
      && popped.items == [Some("third"), Some("second"), Some("first"), None]
      && List(popped.store, CompleteQueueName(c, "test")) == []
      && Members(popped.store, UniqueSetName(c, "test")) == {Sha256("second"), Sha256("third")}
      && UniquePush(c, popped.store, "test", Front, "second", []).1 == 0
  {
    var q := "test";
    var lk := CompleteQueueName(c, q);
    var sk := UniqueSetName(c, q);
    var t1 := TransactionalPopAsWritten(c, st, q, Front, Committed);
    assert List(t1.store, lk) == ["second", "first"] && t1.item == Some("third");
    assert Members(t1.store, sk) == {Sha256("second"), Sha256("third")};
    var t2 := TransactionalPopAsWritten(c, t1.store, q, Front, Committed);
    assert List(t2.store, lk) == ["first"] && t2.item == Some("second");
    assert Members(t2.store, sk) == {Sha256("second"), Sha256("third")};
    var t3 := TransactionalPopAsWritten(c, t2.store, q, Front, Committed);
    assert List(t3.store, lk) == [] && t3.item == Some("first");
    assert Members(t3.store, sk) == {Sha256("second"), Sha256("third")};
    var t4 := TransactionalPopAsWritten(c, t3.store, q, Front, Committed);
    assert t4 == Took(t3.store, None);
    var r3 := UniquePopTimes(c, t3.store, q, Front, 1, [], true);
    assert r3.items == [None];
    var r2 := UniquePopTimes(c, t2.store, q, Front, 2, [], true);
    assert r2.items == [Some("first"), None];
    var r1 := UniquePopTimes(c, t1.store, q, Front, 3, [], true);
    assert r1.items == [Some("second"), Some("first"), None];
  }

  /** The whole sequence with the intended round: the four pushes, then
      `lpop` of 4. */
  lemma UniqueLpushLpopScenario(c: Config)
    ensures var q := "test";
      var p1 := UniquePush(c, EmptyStore, q, Front, "first", []);
      var p2 := UniquePush(c, p1.0, q, Front, "second", []);
      var p3 := UniquePush(c, p2.0, q, Front, "third", []);
      var p4 := UniquePush(c, p3.0, q, Front, "third", []);
      var popped := UniquePopTimes(c, p4.0, q, Front, 4, [], false);
      && [p1.1, p2.1, p3.1, p4.1] == [1, 2, 3, 0]
      && popped.items == [Some("third"), Some("second"), Some("first"), None]
      && List(popped.store, CompleteQueueName(c, q)) == []
      && Members(popped.store, UniqueSetName(c, q)) == {}
  {
    UniqueLpushScenario(c);
    var p1 := UniquePush(c, EmptyStore, "test", Front, "first", []);
    var p2 := UniquePush(c, p1.0, "test", Front, "second", []);
    var p3 := UniquePush(c, p2.0, "test", Front, "third", []);
    var p4 := UniquePush(c, p3.0, "test", Front, "third", []);
    UniqueLpopScenario(c, p4.0);
  }
}
