/**
 * The legacy single-value poll worker: each run fetches one value from the
 * driver and hands it to the callback, or waits `waitTime` when there is
 * none (`null`). The fetch is the `res` parameter of a run; the driver's
 * initialization is not modelled.
 */
module PollWorker {
  import opened JsValues
  import opened PollLoop

  /** The constructor: numeric options over the defaults (wait 4000,
      sleep 0). */
  function New(options: Option<map<string, Value>>): (l: Loop)
    ensures !l.started && !l.running
    ensures options.None? ==> l == Loop(false, false, Num(4000), Num(0))
    ensures options.Some? && "waitTime" in options.value && IsNumber(options.value["waitTime"]) ==>
      l.waitTime == options.value["waitTime"]
    ensures options.Some? && !("waitTime" in options.value && IsNumber(options.value["waitTime"])) ==>
      l.waitTime == Num(4000)
    ensures options.Some? && "sleepTime" in options.value && IsNumber(options.value["sleepTime"]) ==>
      l.sleepTime == options.value["sleepTime"]
    ensures options.Some? && !("sleepTime" in options.value && IsNumber(options.value["sleepTime"])) ==>
      l.sleepTime == Num(0)
  {
    Configured(options)
  }

  /** `run`: mark running; no value waits `waitTime` (even 0), a value goes
      to the callback. */
  function Run(l: Loop, res: Option<string>): (r: (Loop, Next<string>))
    ensures r.0 == l.(running := true)
    ensures res.None? ==> r.1 == RunAfter(l.waitTime)
    ensures res.Some? ==> r.1 == Callback(res.value)
  {
    var l' := l.(running := true);
    match res
    case None => (l', RunAfter(l.waitTime))
    case Some(v) => (l', Callback(v))
  }

  /** The loop driven by a sequence of fetch results, as for the batch
      worker: the loop afterwards, the values handed to the callback, and
      how many results it consumed before it came to rest. */
  function Feed(l: Loop, results: seq<Option<string>>): (r: (Loop, seq<string>, nat))
    ensures r.2 <= |results|
    decreases |results|
  {
    if |results| == 0 then (l, [], 0)
    else
      var s := Run(l, results[0]);
      match s.1
      case Callback(v) =>
        var c := RunCallback<string>(s.0);
        if c.1.Nothing? then (c.0, [v], 1)
        else
          var rest := Feed(c.0, results[1..]);
          (rest.0, [v] + rest.1, rest.2 + 1)
      case _ =>
        var rest := Feed(s.0, results[1..]);
        (rest.0, rest.1, rest.2 + 1)
  }

  /** The values among the results, in order. */
  function Present(results: seq<Option<string>>): (r: seq<string>)
    ensures |r| <= |results|
  {
    if |results| == 0 then []
    else (if results[0].Some? then [results[0].value] else []) + Present(results[1..])
  }

  /** A started worker consumes every result and hands the callback exactly
      the values, in order, whatever `waitTime` is. */
  lemma {:induction false} FeedDelivers(l: Loop, results: seq<Option<string>>)
    requires l.started
    ensures Feed(l, results).2 == |results|
    ensures Feed(l, results).1 == Present(results)
    ensures Feed(l, results).0.started
    decreases |results|
  {
    if |results| > 0 {
      var s := Run(l, results[0]);
      if results[0].Some? {
        FeedDelivers(RunCallback<string>(s.0).0, results[1..]);
      } else {
        FeedDelivers(s.0, results[1..]);
      }
    }
  }

  /** Stopped before a run, the worker delivers that run's value and then
      rests: the callback schedules nothing. */
  lemma StoppedDeliversOnce(l: Loop, results: seq<Option<string>>)
    requires !l.started && |results| > 0 && results[0].Some?
    ensures Feed(l, results) == (l.(running := false), [results[0].value], 1)
  {
  }
}
