/**
 * The legacy batch poll worker: each run fetches up to `multiNumber` values
 * from the driver and hands the batch to the callback, or waits `waitTime`
 * when the batch starts with `null`. The driver's fetch is the `res`
 * parameter of a run; its initialization is not modelled.
 */
module WorkerLL {
  import opened JsValues
  import opened PollLoop

  /** A fetched batch: `null` entries where the queue ran dry. */
  type Batch = seq<Option<string>>

  datatype BatchWorker = BatchWorker(loop: Loop, multiNumber: Value)

  /** The constructor: numeric options over the defaults (wait 4000, sleep 0,
      batch 1), and a throw unless the batch size is a number above 0. */
  function New(options: Option<map<string, Value>>): (r: Result<BatchWorker>)
    ensures var m := NumberOption(options, "multiNumber", Num(1));
      r.Ok? <==> m.Num? && m.n > 0
    ensures r.Ok? ==> r.value.loop == Configured(options) && r.value.multiNumber.Num?
    ensures r.Ok? ==> r.value.multiNumber == NumberOption(options, "multiNumber", Num(1))
    ensures options.None? ==> r == Ok(BatchWorker(Loop(false, false, Num(4000), Num(0)), Num(1)))
  {
    var m := NumberOption(options, "multiNumber", Num(1));
    if m.Num? && m.n > 0 then Ok(BatchWorker(Configured(options), m))
    else Error("Erreur, multi doit être supérieur à 0")
  }

  /** `res[0] === null`: an empty batch has `undefined` there, which is not
      `null`. */
  predicate StartsWithNull(res: Batch) {
    |res| > 0 && res[0].None?
  }

  /** `run` as written: with `waitTime` 0 and a `null` first entry it only
      builds a bound function and returns, so nothing is scheduled and
      `running` stays set. */
  function RunAsWritten(w: BatchWorker, res: Batch): (r: (BatchWorker, Next<Batch>))
    ensures r.0 == w.(loop := w.loop.(running := true))
    ensures !StartsWithNull(res) ==> r.1 == Callback(res)
    ensures StartsWithNull(res) ==> r.1 == (if w.loop.waitTime == Num(0) then Nothing else RunAfter(w.loop.waitTime))
  {
    var w' := w.(loop := w.loop.(running := true));
    if StartsWithNull(res) then
      if w.loop.waitTime == Num(0) then (w', Nothing) else (w', RunAfter(w.loop.waitTime))
    else (w', Callback(res))
  }

  /** `run` as intended: with `waitTime` 0 the next run follows at once. */
  function Run(w: BatchWorker, res: Batch): (r: (BatchWorker, Next<Batch>))
    ensures r.0 == w.(loop := w.loop.(running := true))
    ensures !StartsWithNull(res) ==> r.1 == Callback(res)
    ensures StartsWithNull(res) ==> r.1 == (if w.loop.waitTime == Num(0) then RunNow else RunAfter(w.loop.waitTime))
    ensures r.1 != Nothing
  {
    var w' := w.(loop := w.loop.(running := true));
    if StartsWithNull(res) then
      if w.loop.waitTime == Num(0) then (w', RunNow) else (w', RunAfter(w.loop.waitTime))
    else (w', Callback(res))
  }

  function Step(w: BatchWorker, res: Batch, asWritten: bool): (BatchWorker, Next<Batch>) {
    if asWritten then RunAsWritten(w, res) else Run(w, res)
  }

  /** The loop driven by a sequence of fetch results: each run takes the next
      one, every callback completes at once, and every timer fires. Yields
      the worker afterwards, the batches handed to the callback, and how many
      results the loop consumed before it came to rest. */
  function Feed(w: BatchWorker, results: seq<Batch>, asWritten: bool): (r: (BatchWorker, seq<Batch>, nat))
    ensures r.2 <= |results|
    decreases |results|
  {
    if |results| == 0 then (w, [], 0)
    else
      var s := Step(w, results[0], asWritten);
      match s.1
      case Nothing => (s.0, [], 1)
      case Callback(b) =>
        var c := RunCallback<Batch>(s.0.loop);
        if c.1.Nothing? then (s.0.(loop := c.0), [b], 1)
        else
          var rest := Feed(s.0.(loop := c.0), results[1..], asWritten);
          (rest.0, [b] + rest.1, rest.2 + 1)
      case _ =>
        var rest := Feed(s.0, results[1..], asWritten);
        (rest.0, rest.1, rest.2 + 1)
  }

  /** The batches that reach the callback: those not starting with `null`. */
  function Delivered(results: seq<Batch>): (r: seq<Batch>)
    ensures |r| <= |results|
    ensures forall i :: 0 <= i < |r| ==> !StartsWithNull(r[i])
  {
    if |results| == 0 then []
    else (if StartsWithNull(results[0]) then [] else [results[0]]) + Delivered(results[1..])
  }

  /** A started worker keeps polling: it consumes every result and hands the
      callback exactly the batches that do not start with `null`, in order. */
  lemma {:induction false} FeedDelivers(w: BatchWorker, results: seq<Batch>)
    requires w.loop.started
    ensures Feed(w, results, false).2 == |results|
    ensures Feed(w, results, false).1 == Delivered(results)
    ensures Feed(w, results, false).0.loop.started
    decreases |results|
  {
    if |results| > 0 {
      var s := Run(w, results[0]);
      if s.1.Callback? {
        var c := RunCallback<Batch>(s.0.loop);
        FeedDelivers(s.0.(loop := c.0), results[1..]);
      } else {
        FeedDelivers(s.0, results[1..]);
      }
    }
  }

  /** As written, a worker with `waitTime` 0 stops for good at the first
      batch that starts with `null`: it has delivered the batches before it,
      and it is left started and running, so `start` will never run it again. */
  lemma {:induction false} StallAsWritten(w: BatchWorker, results: seq<Batch>, i: nat)
    requires w.loop.started && w.loop.waitTime == Num(0)
    requires i < |results| && StartsWithNull(results[i])
    requires forall j :: 0 <= j < i ==> !StartsWithNull(results[j])
    ensures var f := Feed(w, results, true);
      && f.2 == i + 1
      && f.1 == results[..i]
      && f.0.loop.started && f.0.loop.running
      && Start<Batch>(f.0.loop).1 == Nothing
      && Start<Batch>(Stop(f.0.loop)).1 == Nothing
    decreases i
  {
    var s := RunAsWritten(w, results[0]);
    if i > 0 {
      var c := RunCallback<Batch>(s.0.loop);
      StallAsWritten(s.0.(loop := c.0), results[1..], i - 1);
      assert [results[0]] + results[1..][..i - 1] == results[..i];
    }
  }

  /** The smallest case: default options but `waitTime` 0, started, and an
      empty queue. As written the first run schedules nothing; as intended it
      runs again at once. */
  lemma StallExample()
    ensures var w := New(Some(map["waitTime" := Num(0)])).value;
      var started := w.(loop := Start<Batch>(w.loop).0);
      && RunAsWritten(started, [None]).1 == Nothing
      && Run(started, [None]).1 == RunNow
  {
  }
}
