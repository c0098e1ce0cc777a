/**
 * Key formatters of the later key layout: the list key and the unique-set key
 * of a queue, and the record key of a worker. `util.format('p%s', s)` with a
 * string argument is plain concatenation.
 */
module Keys {

  function FormatList(name: string): (key: string)
    ensures |key| == |name| + 6
    ensures key[..6] == "queue:" && key[6..] == name
  {
    "queue:" + name
  }

  function FormatSet(name: string): (key: string)
    ensures |key| == |name| + 7
    ensures key[..7] == "unique:" && key[7..] == name
  {
    "unique:" + name
  }

  function FormatHash(queueName: string, workerName: string): (key: string)
    ensures |key| == |queueName| + |workerName| + 8
    ensures key[..7] == "worker:" && key[|key| - |workerName|..] == workerName
  {
    "worker:" + queueName + ":" + workerName
  }

  /** The test vectors of the formatters. */
  lemma FormatExamples()
    ensures FormatList("test") == "queue:test"
    ensures FormatSet("test") == "unique:test"
    ensures FormatHash("test", "w1") == "worker:test:w1"
  {
  }

  /** Distinct queue names never share a list key or a set key. */
  lemma FormatListSetInjective(a: string, b: string)
    ensures FormatList(a) == FormatList(b) ==> a == b
    ensures FormatSet(a) == FormatSet(b) ==> a == b
  {
    if FormatList(a) == FormatList(b) {
      assert a == FormatList(a)[6..] == FormatList(b)[6..] == b;
    }
    if FormatSet(a) == FormatSet(b) {
      assert a == FormatSet(a)[7..] == FormatSet(b)[7..] == b;
    }
  }

  /** A list key is never a set key, whatever the two names. */
  lemma ListKeyIsNeverSetKey(a: string, b: string)
    ensures FormatList(a) != FormatSet(b)
  {
    assert FormatList(a)[0] == 'q';
    assert FormatSet(b)[0] == 'u';
  }

  /** For one queue, distinct worker names give distinct record keys. */
  lemma FormatHashInjectiveInWorker(q: string, w1: string, w2: string)
    ensures FormatHash(q, w1) == FormatHash(q, w2) ==> w1 == w2
  {
    if FormatHash(q, w1) == FormatHash(q, w2) {
      var n := |q| + 8;
      assert FormatHash(q, w1)[n..] == w1;
      assert FormatHash(q, w2)[n..] == w2;
    }
  }
}
