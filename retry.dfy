/**
 * `Retry::handle` (Statement/Retry.php): recovery from a MySQL deadlock
 * (errno 1213) by re-executing the statement with an incremental back-off.
 *
 * The statement is abstract: `exec(x)` is what its x-th re-execution does.
 * Sleeping and reporting to the error handler are recorded as events; the
 * back-off uses exact integer arithmetic where the source goes through a
 * float.
 */
module Retry {
  import opened Php
  import opened Arith
  import Config

  const Deadlock: int := 1213

  /** What one `$statement->execute($params)` does. */
  datatype Outcome =
    | Succeeded(ret: Value)                   // returns a value
    | QueryFailed(errno: int, error: string)  // throws Exception\Query; the statement now shows this errno
    | OtherFailed(err: Error)                 // throws anything else

  datatype Event =
    | Slept(micros: int)
    | Reported(attempt: nat, errno: int, error: string)
    | Executed(attempt: nat)

  function Min(a: int, b: int): int {
    if a <= b then a else b
  }

  /**
   * `(int)` of a quotient: division truncated toward zero. The quotient has
   * the sign of `a` and the largest magnitude whose multiple of `b` does not
   * pass `a`, so the remainder `a - b * q` keeps the sign of `a`.
   */
  function TruncDiv(a: int, b: int): (q: int)
    requires b > 0
    ensures a >= 0 ==> 0 <= q && b * q <= a < b * q + b
    ensures a < 0 ==> q <= 0 && b * q - b < a <= b * q
  {
    if a >= 0 then a / b else -((-a) / b)
  }

  /** The back-off before attempt `x` of `m`, at most `d` microseconds. */
  function Delay(d: int, m: int, x: int): int
    requires m > 0
  {
    Min(d, TruncDiv(d * x, m))
  }

  /** The message of the Query error: `errno . ': ' . error`. */
  function QueryMessage(errno: int, error: string): string {
    IntText(errno) + ": " + error
  }

  const NegativeSleep: string := "usleep(): Argument #1 ($microseconds) must be greater than or equal to 0"
  const NotBool: string := "Retry::handle(): Return value must be of type bool"

  /** `report` does something only when enabled and the handler class is loaded. */
  predicate Reports(c: Config.Settings, handlerExists: bool) {
    c.retryReport && handlerExists
  }

  /** The events of one attempt: its sleep, its report if any, its execute. */
  function Block(c: Config.Settings, handlerExists: bool, x: nat, errno: int, error: string): seq<Event>
    requires c.maxRetry > 0
  {
    var report := if Reports(c, handlerExists) then [Reported(x, errno, error)] else [];
    [Slept(Delay(c.retryDelay, c.maxRetry, x))] + report + [Executed(x)]
  }

  /**
   * Attempts `x` .. `maxRetry` of the loop, starting while the statement
   * shows `errno`/`error`: the result and the events in order.
   */
  function Attempts(c: Config.Settings, handlerExists: bool, exec: nat -> Outcome,
                    x: nat, errno: int, error: string): (Result<bool>, seq<Event>)
    requires c.maxRetry > 0 && x >= 1
    decreases c.maxRetry + 1 - x
  {
    if x > c.maxRetry then (Err(QueryError(QueryMessage(errno, error))), [])
    else
      var delay := Delay(c.retryDelay, c.maxRetry, x);
      if delay < 0 then (Err(EngineError(NegativeSleep)), [])
      else
        var block := Block(c, handlerExists, x, errno, error);
        match exec(x)
        case Succeeded(v) => (if v.VBool? then Ok(v.b) else Err(EngineError(NotBool)), block)
        case OtherFailed(e) => (Err(e), block)
        case QueryFailed(e, msg) =>
          var rest := Attempts(c, handlerExists, exec, x + 1, e, msg);
          (rest.0, block + rest.1)
  }

  lemma AttemptsUnfold(c: Config.Settings, h: bool, exec: nat -> Outcome, x: nat, errno: int, error: string)
    requires c.maxRetry > 0 && 1 <= x <= c.maxRetry
    ensures var t := Attempts(c, h, exec, x, errno, error);
            var block := Block(c, h, x, errno, error);
            && (Delay(c.retryDelay, c.maxRetry, x) < 0 ==> t == (Err(EngineError(NegativeSleep)), []))
            && (Delay(c.retryDelay, c.maxRetry, x) >= 0 ==> t.1[..|block|] == block)
            && (Delay(c.retryDelay, c.maxRetry, x) >= 0 && exec(x).Succeeded? ==>
                 t == (if exec(x).ret.VBool? then Ok(exec(x).ret.b) else Err(EngineError(NotBool)), block))
            && (Delay(c.retryDelay, c.maxRetry, x) >= 0 && exec(x).OtherFailed? ==> t == (Err(exec(x).err), block))
            && (Delay(c.retryDelay, c.maxRetry, x) >= 0 && exec(x).QueryFailed? ==>
                 var rest := Attempts(c, h, exec, x + 1, exec(x).errno, exec(x).error);
                 t == (rest.0, block + rest.1))
  {
  }

  /** The events of attempts x .. M: nothing, one block, or one block followed by the later attempts. */
  lemma TraceUnfold(c: Config.Settings, h: bool, exec: nat -> Outcome, x: nat, errno: int, error: string)
    requires c.maxRetry > 0 && 1 <= x <= c.maxRetry
    ensures Attempts(c, h, exec, x, errno, error).1 ==
            if Delay(c.retryDelay, c.maxRetry, x) < 0 then []
            else if exec(x).QueryFailed? then
              Block(c, h, x, errno, error) + Attempts(c, h, exec, x + 1, exec(x).errno, exec(x).error).1
            else Block(c, h, x, errno, error)
  {
  }

  lemma ConcatAssoc<T>(a: seq<T>, b: seq<T>, c: seq<T>)
    ensures a + (b + c) == (a + b) + c
  {
  }

  /** The whole of `handle` for a statement that shows `errno`/`error`. */
  function Handled(c: Config.Settings, handlerExists: bool, errno: int, error: string,
                   exec: nat -> Outcome): (Result<bool>, seq<Event>)
  {
    if errno == 0 then (Ok(true), [])
    else if errno != Deadlock then (Err(QueryError(QueryMessage(errno, error))), [])
    else if c.maxRetry > 0 then Attempts(c, handlerExists, exec, 1, errno, error)
    else (Err(QueryError(QueryMessage(errno, error))), [])
  }

  /** One iteration of the loop in `handle`, seen from the events recorded before it. */
  lemma AttemptStep(c: Config.Settings, h: bool, exec: nat -> Outcome, x: nat, errno: int, error: string,
                    events: seq<Event>, target: (Result<bool>, seq<Event>))
    requires c.maxRetry > 0 && 1 <= x <= c.maxRetry
    requires target.0 == Attempts(c, h, exec, x, errno, error).0
    requires target.1 == events + Attempts(c, h, exec, x, errno, error).1
    ensures var block := Block(c, h, x, errno, error);
            && (Delay(c.retryDelay, c.maxRetry, x) < 0 ==> target == (Err(EngineError(NegativeSleep)), events))
            && (Delay(c.retryDelay, c.maxRetry, x) >= 0 && exec(x).Succeeded? ==>
                 target == (if exec(x).ret.VBool? then Ok(exec(x).ret.b) else Err(EngineError(NotBool)), events + block))
            && (Delay(c.retryDelay, c.maxRetry, x) >= 0 && exec(x).OtherFailed? ==>
                 target == (Err(exec(x).err), events + block))
            && (Delay(c.retryDelay, c.maxRetry, x) >= 0 && exec(x).QueryFailed? ==>
                 var rest := Attempts(c, h, exec, x + 1, exec(x).errno, exec(x).error);
                 target.0 == rest.0 && target.1 == (events + block) + rest.1)
  {
    AttemptsUnfold(c, h, exec, x, errno, error);
    var block := Block(c, h, x, errno, error);
    if Delay(c.retryDelay, c.maxRetry, x) < 0 {
      assert events + [] == events;
    } else if exec(x).QueryFailed? {
      ConcatAssoc(events, block, Attempts(c, h, exec, x + 1, exec(x).errno, exec(x).error).1);
    }
  }

  /** `Retry::handle`: success when nothing failed, a Query error unless deadlocked, else the retries. */
  method Handle(c: Config.Settings, handlerExists: bool, errno: int, error: string,
                exec: nat -> Outcome) returns (r: Result<bool>, events: seq<Event>)
    ensures r == Handled(c, handlerExists, errno, error, exec).0
    ensures events == Handled(c, handlerExists, errno, error, exec).1
  {
    events := [];
    if errno == 0 {
      return Ok(true), events;
    }
    if errno != Deadlock {
      return Err(QueryError(QueryMessage(errno, error))), events;
    }
    if c.maxRetry > 0 {
      r, events := Retries(c, handlerExists, errno, error, exec);
      return;
    }
    return Err(QueryError(QueryMessage(errno, error))), events;
  }

  /**
   * The `for` loop of `handle` and the throw after it: back off, report and
   * re-execute, up to `maxRetry` times, as long as re-executing raises a Query error.
   */
  method Retries(c: Config.Settings, handlerExists: bool, errno: int, error: string,
                 exec: nat -> Outcome) returns (r: Result<bool>, events: seq<Event>)
    requires c.maxRetry > 0
    ensures (r, events) == Attempts(c, handlerExists, exec, 1, errno, error)
  {
    events := [];
    var curErrno, curError := errno, error;
    var x := 1;
    ghost var target := Attempts(c, handlerExists, exec, 1, errno, error);
    assert events + target.1 == target.1;
    while x < c.maxRetry + 1
      invariant 1 <= x <= c.maxRetry + 1
      invariant target.0 == Attempts(c, handlerExists, exec, x, curErrno, curError).0
      invariant target.1 == events + Attempts(c, handlerExists, exec, x, curErrno, curError).1
      decreases c.maxRetry + 1 - x
    {
      AttemptStep(c, handlerExists, exec, x, curErrno, curError, events, target);
      ghost var block := Block(c, handlerExists, x, curErrno, curError);
      var delay := Min(c.retryDelay, TruncDiv(c.retryDelay * x, c.maxRetry));
      if delay < 0 {
        return Err(EngineError(NegativeSleep)), events;
      }
      ghost var before := events;
      events := events + [Slept(delay)];
      if Reports(c, handlerExists) {
        events := events + [Reported(x, curErrno, curError)];
      }
      events := events + [Executed(x)];
      assert events == before + block;
      match exec(x)
      case Succeeded(v) =>
        return (if v.VBool? then Ok(v.b) else Err(EngineError(NotBool))), events;
      case OtherFailed(e) =>
        return Err(e), events;
      case QueryFailed(e, msg) =>
        curErrno, curError := e, msg;
      x := x + 1;
    }
    assert events + [] == events;
    return Err(QueryError(QueryMessage(curErrno, curError))), events;
  }

  // ----- reading the event trace -----

  function AsSleep(e: Event): Option<int> {
    if e.Slept? then Some(e.micros) else None
  }

  function AsReport(e: Event): Option<nat> {
    if e.Reported? then Some(e.attempt) else None
  }

  function AsExecution(e: Event): Option<nat> {
    if e.Executed? then Some(e.attempt) else None
  }

  /** The values `f` picks out of the trace, in trace order. */
  function Pick<T>(evs: seq<Event>, f: Event -> Option<T>): (xs: seq<T>)
    ensures |xs| <= |evs|
  {
    if evs == [] then []
    else (if f(evs[0]).Some? then [f(evs[0]).value] else []) + Pick(evs[1..], f)
  }

  lemma {:induction false} PickAppend<T>(a: seq<Event>, b: seq<Event>, f: Event -> Option<T>)
    ensures Pick(a + b, f) == Pick(a, f) + Pick(b, f)
  {
    if a != [] {
      assert (a + b)[1..] == a[1..] + b;
      PickAppend(a[1..], b, f);
    } else {
      assert a + b == b;
    }
  }

  function Total(xs: seq<int>): int {
    if xs == [] then 0 else Total(xs[..|xs| - 1]) + xs[|xs| - 1]
  }

  // ----- the back-off -----

  /** Every delay lies between 0 and D, and attempt M waits exactly D. */
  lemma DelayBounds(d: int, m: int, x: int)
    requires d >= 0 && m > 0 && x >= 1
    ensures 0 <= Delay(d, m, x) <= d
    ensures x == m ==> Delay(d, m, x) == d
  {
    MulLe(d, 0, x);
    var q := d * x / m;
    assert d * x == m * q + (d * x) % m;
    if q < 0 {
      MulLe(m, q, -1);
    }
    if x == m {
      assert d * x == m * d;
      if q < d {
        MulLe(m, q + 1, d);
      }
      if q > d {
        MulLe(m, d + 1, q);
      }
    }
  }

  /** Later attempts never wait less. */
  lemma DelayMonotone(d: int, m: int, x: int, y: int)
    requires d >= 0 && m > 0 && 1 <= x <= y
    ensures Delay(d, m, x) <= Delay(d, m, y)
  {
    MulLe(d, x, y);
    MulLe(d, 0, x);
    DivMonotone(d * x, d * y, m);
  }

  /** A delay is at most its share D·x/M of the schedule. */
  lemma DelayShare(d: int, m: int, x: int)
    requires d >= 0 && m > 0 && x >= 1
    ensures m * Delay(d, m, x) <= d * x
  {
    MulLe(d, 0, x);
    var q := d * x / m;
    assert d * x == m * q + (d * x) % m;
    if d < q {
      MulLe(m, d, q);
    }
  }

  /** The delays of attempts 1 .. n. */
  function Schedule(d: int, m: int, n: nat): (s: seq<int>)
    requires m > 0
    ensures |s| == n
    ensures forall i :: 0 <= i < n ==> s[i] == Delay(d, m, i + 1)
  {
    seq(n, i requires 0 <= i => Delay(d, m, i + 1))
  }

  lemma {:induction false} ScheduleSum(d: int, m: int, n: nat)
    requires d >= 0 && m > 0
    ensures 2 * (m * Total(Schedule(d, m, n))) <= d * (n * (n + 1))
  {
    if n > 0 {
      var s := Schedule(d, m, n);
      var s' := Schedule(d, m, n - 1);
      assert s[..n - 1] == s';
      ScheduleSum(d, m, n - 1);
      DelayShare(d, m, n);
      assert Total(s) == Total(s') + Delay(d, m, n);
      TriangleStep(d, m, n, Total(s'), Delay(d, m, n));
    }
  }

  /**
   * The bound documented with the retry settings: whatever number n <= M of
   * attempts ran, the back-off adds up to at most D·(M+1)/2.
   */
  lemma TotalBackoffBound(d: int, m: int, n: nat)
    requires d >= 0 && m > 0 && n <= m
    ensures 2 * Total(Schedule(d, m, n)) <= d * (m + 1)
  {
    ScheduleSum(d, m, n);
    TriangleUnweighted(d, m, n, Total(Schedule(d, m, n)));
  }

  // ----- the loop, attempt by attempt -----

  lemma BlockPicks(c: Config.Settings, h: bool, x: nat, errno: int, error: string)
    requires c.maxRetry > 0
    ensures var b := Block(c, h, x, errno, error);
            && Pick(b, AsExecution) == [x]
            && Pick(b, AsSleep) == [Delay(c.retryDelay, c.maxRetry, x)]
            && Pick(b, AsReport) == (if Reports(c, h) then [x] else [])
  {
    var report := if Reports(c, h) then [Reported(x, errno, error)] else [];
    var first := [Slept(Delay(c.retryDelay, c.maxRetry, x))];
    PickAppend(first + report, [Executed(x)], AsExecution);
    PickAppend(first, report, AsExecution);
    PickAppend(first + report, [Executed(x)], AsSleep);
    PickAppend(first, report, AsSleep);
    PickAppend(first + report, [Executed(x)], AsReport);
    PickAppend(first, report, AsReport);
  }

  /** `runs` numbers the attempts x, x+1, .. in order. */
  predicate Consecutive(runs: seq<nat>, x: int) {
    forall i :: 0 <= i < |runs| ==> runs[i] == x + i
  }

  /** `sleeps` are the scheduled delays of attempts x, x+1, .. in order. */
  predicate OnSchedule(sleeps: seq<int>, d: int, m: int, x: int)
    requires m > 0
  {
    forall i :: 0 <= i < |sleeps| ==> sleeps[i] == Delay(d, m, x + i)
  }

  /** Attempts `x` onwards run x, x+1, .. in order, and never past M. */
  lemma {:induction false} AttemptsRuns(c: Config.Settings, h: bool, exec: nat -> Outcome,
                                        x: nat, errno: int, error: string)
    requires c.maxRetry > 0 && 1 <= x <= c.maxRetry + 1
    ensures var runs := Pick(Attempts(c, h, exec, x, errno, error).1, AsExecution);
            x - 1 + |runs| <= c.maxRetry && Consecutive(runs, x)
    decreases c.maxRetry + 1 - x
  {
    var evs := Attempts(c, h, exec, x, errno, error).1;
    if x > c.maxRetry {
      assert evs == [];
    } else {
      TraceUnfold(c, h, exec, x, errno, error);
      if Delay(c.retryDelay, c.maxRetry, x) < 0 {
        assert evs == [];
      } else if exec(x).QueryFailed? {
        var rest := Attempts(c, h, exec, x + 1, exec(x).errno, exec(x).error).1;
        assert evs == Block(c, h, x, errno, error) + rest;
        AttemptsRuns(c, h, exec, x + 1, exec(x).errno, exec(x).error);
        RunsStep(c, h, x, errno, error, rest);
      } else {
        assert evs == Block(c, h, x, errno, error);
        BlockPicks(c, h, x, errno, error);
      }
    }
  }

  /** The executions of one more block in front of a trace that runs from attempt x + 1. */
  lemma RunsStep(c: Config.Settings, h: bool, x: nat, errno: int, error: string, rest: seq<Event>)
    requires c.maxRetry > 0
    requires Consecutive(Pick(rest, AsExecution), x + 1)
    ensures var runs := Pick(Block(c, h, x, errno, error) + rest, AsExecution);
            |runs| == 1 + |Pick(rest, AsExecution)| && Consecutive(runs, x)
  {
    var block := Block(c, h, x, errno, error);
    BlockPicks(c, h, x, errno, error);
    PickAppend(block, rest, AsExecution);
    var tail := Pick(rest, AsExecution);
    forall i | 0 <= i < 1 + |tail| ensures ([x] + tail)[i] == x + i {
      if i > 0 {
        assert ([x] + tail)[i] == tail[i - 1];
      }
    }
  }



  /** Each attempt sleeps its scheduled delay: one sleep per execute. */
  lemma {:induction false} AttemptsSleeps(c: Config.Settings, h: bool, exec: nat -> Outcome,
                                          x: nat, errno: int, error: string)
    requires c.maxRetry > 0 && 1 <= x <= c.maxRetry + 1
    ensures var evs := Attempts(c, h, exec, x, errno, error).1;
            var sleeps := Pick(evs, AsSleep);
            |sleeps| == |Pick(evs, AsExecution)| && OnSchedule(sleeps, c.retryDelay, c.maxRetry, x)
    decreases c.maxRetry + 1 - x
  {
    var evs := Attempts(c, h, exec, x, errno, error).1;
    if x > c.maxRetry {
      assert evs == [];
    } else {
      TraceUnfold(c, h, exec, x, errno, error);
      if Delay(c.retryDelay, c.maxRetry, x) < 0 {
        assert evs == [];
      } else if exec(x).QueryFailed? {
        var rest := Attempts(c, h, exec, x + 1, exec(x).errno, exec(x).error).1;
        assert evs == Block(c, h, x, errno, error) + rest;
        AttemptsSleeps(c, h, exec, x + 1, exec(x).errno, exec(x).error);
        SleepsStep(c, h, x, errno, error, rest);
      } else {
        assert evs == Block(c, h, x, errno, error);
        BlockPicks(c, h, x, errno, error);
      }
    }
  }

  /** The sleeps of one more block in front of a trace whose sleeps follow the schedule from attempt x + 1. */
  lemma SleepsStep(c: Config.Settings, h: bool, x: nat, errno: int, error: string, rest: seq<Event>)
    requires c.maxRetry > 0
    requires |Pick(rest, AsSleep)| == |Pick(rest, AsExecution)|
    requires OnSchedule(Pick(rest, AsSleep), c.retryDelay, c.maxRetry, x + 1)
    ensures var evs := Block(c, h, x, errno, error) + rest;
            var sleeps := Pick(evs, AsSleep);
            |sleeps| == |Pick(evs, AsExecution)| && OnSchedule(sleeps, c.retryDelay, c.maxRetry, x)
  {
    var block := Block(c, h, x, errno, error);
    BlockPicks(c, h, x, errno, error);
    PickAppend(block, rest, AsExecution);
    PickAppend(block, rest, AsSleep);
    var d := Delay(c.retryDelay, c.maxRetry, x);
    var tail := Pick(rest, AsSleep);
    forall i | 0 <= i < 1 + |tail| ensures ([d] + tail)[i] == Delay(c.retryDelay, c.maxRetry, x + i) {
      if i > 0 {
        assert ([d] + tail)[i] == tail[i - 1];
      }
    }
  }



  /** Reports accompany exactly the executes when reporting is on, and never otherwise. */
  lemma {:induction false} AttemptsReports(c: Config.Settings, h: bool, exec: nat -> Outcome,
                                           x: nat, errno: int, error: string)
    requires c.maxRetry > 0 && 1 <= x <= c.maxRetry + 1
    ensures var evs := Attempts(c, h, exec, x, errno, error).1;
            Pick(evs, AsReport) == (if Reports(c, h) then Pick(evs, AsExecution) else [])
    decreases c.maxRetry + 1 - x
  {
    var evs := Attempts(c, h, exec, x, errno, error).1;
    if x > c.maxRetry {
      assert evs == [];
    } else {
      TraceUnfold(c, h, exec, x, errno, error);
      if Delay(c.retryDelay, c.maxRetry, x) < 0 {
        assert evs == [];
      } else if exec(x).QueryFailed? {
        var rest := Attempts(c, h, exec, x + 1, exec(x).errno, exec(x).error).1;
        assert evs == Block(c, h, x, errno, error) + rest;
        AttemptsReports(c, h, exec, x + 1, exec(x).errno, exec(x).error);
        ReportsStep(c, h, x, errno, error, rest);
      } else {
        assert evs == Block(c, h, x, errno, error);
        BlockPicks(c, h, x, errno, error);
      }
    }
  }

  /** The reports of one more block in front of a trace whose reports match its executes as the setting says. */
  lemma ReportsStep(c: Config.Settings, h: bool, x: nat, errno: int, error: string, rest: seq<Event>)
    requires c.maxRetry > 0
    requires Pick(rest, AsReport) == (if Reports(c, h) then Pick(rest, AsExecution) else [])
    ensures var evs := Block(c, h, x, errno, error) + rest;
            Pick(evs, AsReport) == (if Reports(c, h) then Pick(evs, AsExecution) else [])
  {
    var block := Block(c, h, x, errno, error);
    BlockPicks(c, h, x, errno, error);
    PickAppend(block, rest, AsExecution);
    PickAppend(block, rest, AsReport);
  }



  /** The execute at `i` comes right after its own report, if reports are on, and after a sleep. */
  predicate Prepared(evs: seq<Event>, i: int, reports: bool)
    requires 0 <= i < |evs| && evs[i].Executed?
  {
    if reports then i >= 2 && evs[i - 1].Reported? && evs[i - 1].attempt == evs[i].attempt && evs[i - 2].Slept?
    else i >= 1 && evs[i - 1].Slept?
  }

  ghost predicate InOrder(evs: seq<Event>, reports: bool) {
    forall i :: 0 <= i < |evs| && evs[i].Executed? ==> Prepared(evs, i, reports)
  }

  lemma {:induction false} AttemptsInOrder(c: Config.Settings, h: bool, exec: nat -> Outcome,
                                           x: nat, errno: int, error: string)
    requires c.maxRetry > 0 && 1 <= x
    ensures InOrder(Attempts(c, h, exec, x, errno, error).1, Reports(c, h))
    decreases c.maxRetry + 1 - x
  {
    if x <= c.maxRetry {
      AttemptsUnfold(c, h, exec, x, errno, error);
      var block := Block(c, h, x, errno, error);
      assert InOrder(block, Reports(c, h));
      if Delay(c.retryDelay, c.maxRetry, x) >= 0 && exec(x).QueryFailed? {
        var rest := Attempts(c, h, exec, x + 1, exec(x).errno, exec(x).error).1;
        AttemptsInOrder(c, h, exec, x + 1, exec(x).errno, exec(x).error);
        InOrderAppend(block, rest, Reports(c, h));
        assert Attempts(c, h, exec, x, errno, error).1 == block + rest;
      }
    }
  }

  lemma InOrderAppend(a: seq<Event>, b: seq<Event>, reports: bool)
    requires InOrder(a, reports) && InOrder(b, reports)
    ensures InOrder(a + b, reports)
  {
    var evs := a + b;
    forall i | 0 <= i < |evs| && evs[i].Executed?
      ensures Prepared(evs, i, reports)
    {
      if i >= |a| {
        var j := i - |a|;
        assert b[j] == evs[i] && b[j].Executed?;
        assert Prepared(b, j, reports);
        assert evs[i - 1] == b[j - 1];
        if reports {
          assert evs[i - 2] == b[j - 2];
        }
      } else {
        assert a[i] == evs[i] && a[i].Executed?;
        assert Prepared(a, i, reports);
        assert evs[i - 1] == a[i - 1];
        if reports {
          assert evs[i - 2] == a[i - 2];
        }
      }
    }
  }

  // ----- what handle promises -----

  /** errno 0 means the statement succeeded: true, nothing slept or re-run. */
  lemma NoErrorIsSuccess(c: Config.Settings, h: bool, error: string, exec: nat -> Outcome)
    ensures Handled(c, h, 0, error, exec) == (Ok(true), [])
  {
  }

  /** Only a deadlock is retried; any other errno is a Query error at once. */
  lemma OnlyDeadlockRetried(c: Config.Settings, h: bool, errno: int, error: string, exec: nat -> Outcome)
    requires errno != 0 && errno != Deadlock
    ensures Handled(c, h, errno, error, exec) == (Err(QueryError(QueryMessage(errno, error))), [])
  {
  }

  /** With no retries configured (the default), a deadlock fails with no re-execution. */
  lemma NoRetryBudget(c: Config.Settings, h: bool, error: string, exec: nat -> Outcome)
    requires c.maxRetry <= 0
    ensures Handled(c, h, Deadlock, error, exec) == (Err(QueryError(QueryMessage(Deadlock, error))), [])
  {
  }

  lemma DefaultsNeverRetry(h: bool, error: string, exec: nat -> Outcome)
    ensures Handled(Config.Defaults, h, Deadlock, error, exec).1 == []
  {
    NoRetryBudget(Config.Defaults, h, error, exec);
  }

  /**
   * The trace of `handle`: re-executions are attempts 1, 2, .. in order and
   * at most M of them; each waits its scheduled delay, so the waits add up to
   * at most D·(M+1)/2; reports happen exactly when enabled, one per attempt,
   * each between that attempt's sleep and its execute.
   */
  lemma HandleTrace(c: Config.Settings, h: bool, errno: int, error: string, exec: nat -> Outcome)
    requires c.retryDelay >= 0
    ensures var evs := Handled(c, h, errno, error, exec).1;
            var runs := Pick(evs, AsExecution);
            && |runs| <= (if c.maxRetry > 0 then c.maxRetry else 0)
            && (forall i :: 0 <= i < |runs| ==> runs[i] == i + 1)
            && (c.maxRetry > 0 ==> Pick(evs, AsSleep) == Schedule(c.retryDelay, c.maxRetry, |runs|))
            && (c.maxRetry > 0 ==> 2 * Total(Pick(evs, AsSleep)) <= c.retryDelay * (c.maxRetry + 1))
            && Pick(evs, AsReport) == (if Reports(c, h) then runs else [])
            && InOrder(evs, Reports(c, h))
  {
    if errno == Deadlock && c.maxRetry > 0 {
      var evs := Attempts(c, h, exec, 1, errno, error).1;
      assert Handled(c, h, errno, error, exec).1 == evs;
      AttemptsInOrder(c, h, exec, 1, errno, error);
      AttemptsRuns(c, h, exec, 1, errno, error);
      AttemptsSleeps(c, h, exec, 1, errno, error);
      AttemptsReports(c, h, exec, 1, errno, error);
      var runs := Pick(evs, AsExecution);
      var sleeps := Pick(evs, AsSleep);
      assert forall i :: 0 <= i < |sleeps| ==> sleeps[i] == Delay(c.retryDelay, c.maxRetry, i + 1);
      assert sleeps == Schedule(c.retryDelay, c.maxRetry, |runs|);
      TotalBackoffBound(c.retryDelay, c.maxRetry, |runs|);
    } else {
      assert Handled(c, h, errno, error, exec).1 == [];
      if c.maxRetry > 0 {
        MulLe(c.retryDelay, 0, c.maxRetry + 1);
      }
    }
  }

  /** Every attempt before `k` failed with a Query error. */
  predicate FailedBefore(exec: nat -> Outcome, k: nat) {
    forall j :: 1 <= j < k ==> exec(j).QueryFailed?
  }

  lemma {:induction false} AttemptsFirstSuccess(c: Config.Settings, h: bool, exec: nat -> Outcome,
                                                x: nat, k: nat, errno: int, error: string)
    requires c.maxRetry > 0 && c.retryDelay >= 0 && 1 <= x <= k <= c.maxRetry
    requires FailedBefore(exec, k) && exec(k).Succeeded?
    ensures Attempts(c, h, exec, x, errno, error).0 ==
            (if exec(k).ret.VBool? then Ok(exec(k).ret.b) else Err(EngineError(NotBool)))
    decreases k - x
  {
    DelayBounds(c.retryDelay, c.maxRetry, x);
    if x < k {
      AttemptsFirstSuccess(c, h, exec, x + 1, k, exec(x).errno, exec(x).error);
    }
  }

  /** The first re-execution that succeeds decides the result. */
  lemma FirstSuccessReturned(c: Config.Settings, h: bool, error: string, exec: nat -> Outcome, k: nat)
    requires c.retryDelay >= 0 && 1 <= k <= c.maxRetry
    requires FailedBefore(exec, k) && exec(k).Succeeded?
    ensures Handled(c, h, Deadlock, error, exec).0 ==
            (if exec(k).ret.VBool? then Ok(exec(k).ret.b) else Err(EngineError(NotBool)))
  {
    AttemptsFirstSuccess(c, h, exec, 1, k, Deadlock, error);
  }

  lemma {:induction false} AttemptsAllFail(c: Config.Settings, h: bool, exec: nat -> Outcome,
                                           x: nat, errno: int, error: string)
    requires c.maxRetry > 0 && c.retryDelay >= 0 && 1 <= x <= c.maxRetry
    requires FailedBefore(exec, c.maxRetry + 1)
    ensures Attempts(c, h, exec, x, errno, error).0 ==
            Err(QueryError(QueryMessage(exec(c.maxRetry).errno, exec(c.maxRetry).error)))
    decreases c.maxRetry - x
  {
    DelayBounds(c.retryDelay, c.maxRetry, x);
    if x < c.maxRetry {
      AttemptsAllFail(c, h, exec, x + 1, exec(x).errno, exec(x).error);
    }
  }

  /**
   * When every re-execution throws a Query error, `handle` throws one built
   * from what the statement shows last.
   */
  lemma AllAttemptsFail(c: Config.Settings, h: bool, error: string, exec: nat -> Outcome)
    requires c.maxRetry > 0 && c.retryDelay >= 0
    requires FailedBefore(exec, c.maxRetry + 1)
    ensures Handled(c, h, Deadlock, error, exec).0 ==
            Err(QueryError(QueryMessage(exec(c.maxRetry).errno, exec(c.maxRetry).error)))
  {
    AttemptsAllFail(c, h, exec, 1, Deadlock, error);
  }

  /** Success can only come from errno 0 or from a re-execution that returned true or false. */
  lemma {:induction false} AttemptsOk(c: Config.Settings, h: bool, exec: nat -> Outcome,
                                      x: nat, errno: int, error: string)
    requires c.maxRetry > 0 && x >= 1
    ensures Attempts(c, h, exec, x, errno, error).0.Ok? ==>
            exists k :: x <= k <= c.maxRetry && exec(k) == Succeeded(VBool(Attempts(c, h, exec, x, errno, error).0.value))
    decreases c.maxRetry + 1 - x
  {
    if x <= c.maxRetry && exec(x).QueryFailed? {
      AttemptsOk(c, h, exec, x + 1, exec(x).errno, exec(x).error);
    }
  }
}
