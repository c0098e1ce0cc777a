/**
 * The in-memory driver: worker records under the bare worker name and queue
 * lists under the bare queue name, in the shared `Store` value. Values are
 * kept as given (no text conversion). Pushed data is a string; the only
 * falsy string is the empty one.
 */
module MemoryDriver {
  import opened JsValues
  import opened Store

  /** `initialize`: the first call empties both maps and marks the driver
      initialized; a later call leaves everything as it is. */
  function Initialize(st: Store): (r: Store)
    ensures r.memoryReady
    ensures st.memoryReady ==> r == st
    ensures !st.memoryReady ==> r.lists == map[] && r.sets == map[] && r.hashes == map[]
  {
    if st.memoryReady then st else EmptyStore.(memoryReady := true)
  }

  /** A second `initialize` changes nothing. */
  lemma InitializeOnce(st: Store)
    ensures Initialize(Initialize(st)) == Initialize(st)
  {
  }

  /** `hincrby`: `workers[w][key] += number`, creating the record when absent. */
  function HIncrBy(st: Store, worker: string, key: string, number: int): (r: Store)
    ensures Field(r, worker, key) == Some(AddNumber(Field(st, worker, key), number))
    ensures r.lists == st.lists && r.sets == st.sets
  {
    WithField(st, worker, key, AddNumber(Field(st, worker, key), number))
  }

  /** `hset`: one field of one record, creating the record when absent. */
  function HSet(st: Store, worker: string, key: string, data: Value): (r: Store)
    ensures Field(r, worker, key) == Some(data) && Hash(r, worker).Some?
    ensures r.lists == st.lists && r.sets == st.sets && r.memoryReady == st.memoryReady
  {
    WithField(st, worker, key, data)
  }

  /** `hgetall`: the record as stored, `None` (undefined) when never written. */
  function HGetAll(st: Store, worker: string): (r: Option<Record>)
    ensures r.Some? <==> worker in st.hashes
    ensures r.Some? ==> r.value == st.hashes[worker]
    ensures forall f :: r.Some? && f in r.value ==> Field(st, worker, f) == Some(r.value[f])
  {
    Hash(st, worker)
  }

  /** `lpush`: `unshift` onto the list, creating it when absent. */
  function LPush(st: Store, queue: string, data: string): (r: Store)
    ensures List(r, queue) == [data] + List(st, queue) && queue in r.lists
    ensures forall q :: q != queue ==> List(r, q) == List(st, q)
    ensures r.sets == st.sets && r.hashes == st.hashes
  {
    WithList(st, queue, Pushed(List(st, queue), Front, data))
  }

  /** `rpush`: `push` onto the list, creating it when absent. */
  function RPush(st: Store, queue: string, data: string): (r: Store)
    ensures List(r, queue) == List(st, queue) + [data] && queue in r.lists
    ensures forall q :: q != queue ==> List(r, q) == List(st, q)
    ensures r.sets == st.sets && r.hashes == st.hashes
  {
    WithList(st, queue, Pushed(List(st, queue), Back, data))
  }

  /** The truthy (non-empty) strings of `s`, in order. */
  function Truthful(s: seq<string>): (r: seq<string>)
    ensures |r| <= |s|
    ensures forall i :: 0 <= i < |r| ==> r[i] != ""
  {
    if |s| == 0 then []
    else (if s[0] != "" then [s[0]] else []) + Truthful(s[1..])
  }

  function Reverse(s: seq<string>): (r: seq<string>)
    ensures |r| == |s|
  {
    if |s| == 0 then [] else [s[|s| - 1]] + Reverse(s[..|s| - 1])
  }

  /** The `for` loop of `lpop`: `count` times `shift()`, keeping the truthy
      items. Yields the remaining list and the kept items. */
  function ShiftLoop(l: seq<string>, count: nat): (seq<string>, seq<string>)
    decreases count
  {
    if count == 0 then (l, [])
    else if |l| == 0 then ShiftLoop(l, count - 1)
    else
      var next := ShiftLoop(l[1..], count - 1);
      (next.0, (if l[0] != "" then [l[0]] else []) + next.1)
  }

  /** The `for` loop of `rpop`: `count` times `pop()`, keeping the truthy items. */
  function PopLoop(l: seq<string>, count: nat): (seq<string>, seq<string>)
    decreases count
  {
    if count == 0 then (l, [])
    else if |l| == 0 then PopLoop(l, count - 1)
    else
      var last := l[|l| - 1];
      var next := PopLoop(l[..|l| - 1], count - 1);
      (next.0, (if last != "" then [last] else []) + next.1)
  }

  function Min(a: nat, b: nat): nat {
    if a < b then a else b
  }

  /** Reversal reads the list from the back. */
  lemma {:induction false} ReverseReadsBack(s: seq<string>)
    ensures forall i :: 0 <= i < |s| ==> Reverse(s)[i] == s[|s| - 1 - i]
    decreases |s|
  {
    if |s| > 0 {
      var init := s[..|s| - 1];
      ReverseReadsBack(init);
      forall i | 0 < i < |s| ensures Reverse(s)[i] == s[|s| - 1 - i] {
        assert Reverse(s)[i] == Reverse(init)[i - 1];
      }
    }
  }

  /** `shift` `count` times removes the first min(count, |l|) items and keeps
      the truthy ones among them, in removal order. */
  lemma {:induction false} ShiftLoopTakesPrefix(l: seq<string>, count: nat)
    ensures ShiftLoop(l, count).0 == l[Min(count, |l|)..]
    ensures ShiftLoop(l, count).1 == Truthful(l[..Min(count, |l|)])
    decreases count
  {
    if count == 0 {
    } else if |l| == 0 {
      ShiftLoopTakesPrefix(l, count - 1);
    } else {
      ShiftLoopTakesPrefix(l[1..], count - 1);
      var k := Min(count, |l|);
      var prefix := l[..k];
      assert l[1..][Min(count - 1, |l| - 1)..] == l[k..];
      assert prefix[1..] == l[1..][..Min(count - 1, |l| - 1)];
      assert Truthful(prefix) == (if l[0] != "" then [l[0]] else []) + Truthful(prefix[1..]);
    }
  }

  /** `pop` `count` times removes the last min(count, |l|) items and keeps the
      truthy ones among them, newest first. */
  lemma {:induction false} PopLoopTakesSuffix(l: seq<string>, count: nat)
    ensures PopLoop(l, count).0 == l[..|l| - Min(count, |l|)]
    ensures PopLoop(l, count).1 == Truthful(Reverse(l[|l| - Min(count, |l|)..]))
    decreases count
  {
    if count == 0 {
      assert l[|l|..] == [];
    } else if |l| == 0 {
      PopLoopTakesSuffix(l, count - 1);
    } else {
      var init := l[..|l| - 1];
      PopLoopTakesSuffix(init, count - 1);
      var k := Min(count, |l|);
      var k' := Min(count - 1, |l| - 1);
      assert k == k' + 1;
      assert init[..|init| - k'] == l[..|l| - k];
      ReverseOfSuffix(l, k);
    }
  }

  /** The last k items reversed: the last item, then the k - 1 before it
      reversed. */
  lemma ReverseOfSuffix(l: seq<string>, k: nat)
    requires 0 < k <= |l|
    ensures Reverse(l[|l| - k..]) == [l[|l| - 1]] + Reverse(l[..|l| - 1][|l| - k..])
  {
    var suffix := l[|l| - k..];
    assert suffix[|suffix| - 1] == l[|l| - 1];
    assert suffix[..|suffix| - 1] == l[..|l| - 1][|l| - k..];
  }

  /** Count of loop rounds for a `number` argument: `i < number` with `i`
      from 0. */
  function Rounds(number: int): nat {
    if number > 0 then number else 0
  }

  /** `lpop(queue, number)`: the store afterwards and the items handed back. */
  function LPop(st: Store, queue: string, number: int): (r: (Store, seq<string>))
    ensures |r.1| <= Rounds(number)
    ensures forall i :: 0 <= i < |r.1| ==> r.1[i] != ""
    ensures forall q :: q != queue ==> List(r.0, q) == List(st, q)
    ensures r.0.sets == st.sets && r.0.hashes == st.hashes
  {
    var loop := ShiftLoop(List(st, queue), Rounds(number));
    ShiftLoopTakesPrefix(List(st, queue), Rounds(number));
    (WithList(st, queue, loop.0), loop.1)
  }

  /** `rpop(queue, number)`: the store afterwards and the items handed back. */
  function RPop(st: Store, queue: string, number: int): (r: (Store, seq<string>))
    ensures |r.1| <= Rounds(number)
    ensures forall i :: 0 <= i < |r.1| ==> r.1[i] != ""
    ensures forall q :: q != queue ==> List(r.0, q) == List(st, q)
    ensures r.0.sets == st.sets && r.0.hashes == st.hashes
  {
    var loop := PopLoop(List(st, queue), Rounds(number));
    PopLoopTakesSuffix(List(st, queue), Rounds(number));
    (WithList(st, queue, loop.0), loop.1)
  }

  /** `lpop` removes min(n, len) items from the front and returns the truthy
      ones in removal order. */
  lemma LPopRemovesFront(st: Store, queue: string, number: int)
    ensures var k := Min(Rounds(number), |List(st, queue)|);
      && List(LPop(st, queue, number).0, queue) == List(st, queue)[k..]
      && LPop(st, queue, number).1 == Truthful(List(st, queue)[..k])
  {
    ShiftLoopTakesPrefix(List(st, queue), Rounds(number));
  }

  /** `rpop` removes min(n, len) items from the back and returns the truthy
      ones, newest first. */
  lemma RPopRemovesBack(st: Store, queue: string, number: int)
    ensures var l := List(st, queue); var k := Min(Rounds(number), |l|);
      && List(RPop(st, queue, number).0, queue) == l[..|l| - k]
      && RPop(st, queue, number).1 == Truthful(Reverse(l[|l| - k..]))
  {
    PopLoopTakesSuffix(List(st, queue), Rounds(number));
  }

  /** `llen`: the length, 0 for a queue never used; the list is created empty. */
  function LLen(st: Store, queue: string): (r: (Store, nat))
    ensures r.1 == |List(st, queue)|
    ensures queue !in st.lists ==> r.1 == 0
    ensures queue in r.0.lists && forall q :: List(r.0, q) == List(st, q)
  {
    var l := List(st, queue);
    (WithList(st, queue, l), |l|)
  }

  /** A truthy item pushed at either end comes back from a one-item pop at
      that same end, and the list is as before the push. */
  lemma PushThenPopSameEnd(st: Store, queue: string, data: string)
    requires data != ""
    ensures LPop(LPush(st, queue, data), queue, 1).1 == [data]
    ensures List(LPop(LPush(st, queue, data), queue, 1).0, queue) == List(st, queue)
    ensures RPop(RPush(st, queue, data), queue, 1).1 == [data]
    ensures List(RPop(RPush(st, queue, data), queue, 1).0, queue) == List(st, queue)
  {
    var l := List(st, queue);
    LPopRemovesFront(LPush(st, queue, data), queue, 1);
    assert ([data] + l)[..1] == [data];
    assert ([data] + l)[1..] == l;
    assert Truthful([data]) == [data];
    RPopRemovesBack(RPush(st, queue, data), queue, 1);
    var l' := l + [data];
    assert l'[|l'| - 1..] == [data];
    assert l'[..|l'| - 1] == l;
    assert Reverse([data]) == [data];
  }
}
