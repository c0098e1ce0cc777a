/**
 * The flag machine the two legacy poll workers share: `started` says the
 * loop should keep going, `running` that a run is between fetching a result
 * and its callback's completion. Timers and the synchronous `run()` call
 * become the `Next` value a step returns.
 */
module PollLoop {
  import opened JsValues

  /** The worker's flags and delays; the delays are whatever number the
      caller gave. */
  datatype Loop = Loop(started: bool, running: bool, waitTime: Value, sleepTime: Value)

  /** What a step leaves to happen: nothing, a synchronous `run()`, a `run`
      after a `setTimeout` delay, or the user callback called with a result. */
  datatype Next<T> = Nothing | RunNow | RunAfter(delay: Value) | Callback(result: T)

  /** `options.key` when `options` is given and that entry is a number, else
      the default. */
  function NumberOption(options: Option<map<string, Value>>, key: string, default: Value): (v: Value)
    ensures options.None? || key !in options.value ==> v == default
    ensures options.Some? && key in options.value ==>
      v == (if IsNumber(options.value[key]) then options.value[key] else default)
  {
    if options.Some? && key in options.value && IsNumber(options.value[key]) then options.value[key] else default
  }

  /** The flags and delays the constructors set: stopped, idle, and the
      numeric options over the defaults 4000 and 0. */
  function Configured(options: Option<map<string, Value>>): (l: Loop)
    ensures !l.started && !l.running
    ensures IsNumber(l.waitTime) && IsNumber(l.sleepTime)
    ensures options.Some? && "waitTime" in options.value && IsNumber(options.value["waitTime"]) ==>
      l.waitTime == options.value["waitTime"]
    ensures !(options.Some? && "waitTime" in options.value && IsNumber(options.value["waitTime"])) ==>
      l.waitTime == Num(4000)
    ensures options.Some? && "sleepTime" in options.value && IsNumber(options.value["sleepTime"]) ==>
      l.sleepTime == options.value["sleepTime"]
    ensures !(options.Some? && "sleepTime" in options.value && IsNumber(options.value["sleepTime"])) ==>
      l.sleepTime == Num(0)
  {
    Loop(false, false, NumberOption(options, "waitTime", Num(4000)), NumberOption(options, "sleepTime", Num(0)))
  }

  /** `start`: mark started; call `run` at once only when the loop was
      stopped and no run is in flight. */
  function Start<T>(l: Loop): (r: (Loop, Next<T>))
    ensures r.0.started
    ensures r.0.running == l.running && r.0.waitTime == l.waitTime && r.0.sleepTime == l.sleepTime
    ensures r.1.RunNow? <==> !l.started && !l.running
    ensures !r.1.RunNow? ==> r.1.Nothing?
  {
    if !l.started then
      (l.(started := true), if !l.running then RunNow else Nothing)
    else (l, Nothing)
  }

  /** `runCallback`: the run is over; the next one comes `sleepTime` later,
      but only while the loop is started. */
  function RunCallback<T>(l: Loop): (r: (Loop, Next<T>))
    ensures !r.0.running && r.0.started == l.started
    ensures r.0.waitTime == l.waitTime && r.0.sleepTime == l.sleepTime
    ensures r.1 != Nothing <==> l.started
    ensures l.started ==> r.1 == RunAfter(l.sleepTime)
  {
    var l' := l.(running := false);
    if l.started then (l', RunAfter(l.sleepTime)) else (l', Nothing)
  }

  /** `stop`: only clears `started`; a run in flight finishes. */
  function Stop(l: Loop): (r: Loop)
    ensures !r.started
    ensures r.running == l.running && r.waitTime == l.waitTime && r.sleepTime == l.sleepTime
  {
    l.(started := false)
  }

  /** A second `start` changes nothing and runs nothing. */
  lemma StartIdempotent<T>(l: Loop)
    ensures var s := Start<T>(l);
      && Start<T>(s.0) == (s.0, Nothing)
  {
  }

  /** After `stop`, the run in flight ends the loop: its callback schedules
      nothing. */
  lemma StopEndsLoop<T>(l: Loop)
    ensures RunCallback<T>(Stop(l)) == (Stop(l).(running := false), Nothing)
  {
  }

  /** `stop` then `start` while a run is in flight runs nothing at once, and
      the pending callback carries the loop on after `sleepTime`. */
  lemma RestartWhileRunning<T>(l: Loop)
    requires l.running
    ensures var s := Start<T>(Stop(l));
      && s.1 == Nothing
      && RunCallback<T>(s.0).1 == RunAfter(l.sleepTime)
  {
  }
}
