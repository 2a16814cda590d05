/**
  The life of one worker goroutine as a log of events.

  `Next` gives the effect of one event on the worker's position in its code and `Replay` runs a
  whole log. The lemmas say what every log the worker can produce looks like, in terms that do not
  mention `Next`: how many consecutive failures it tolerates, what it emits, and when its collector
  is closed.
 */
module WorkerLog {
  import opened Types

  datatype Event =
    | Started
    | Created                        // NewCollector returned a collector
    | CreateFailed                   // NewCollector returned an error
    | TimerFired                     // the select took the timer arm; Collect is being called
    | CollectFailed
    | Collected(metrics: seq<Metric>)
    | Emitted(envelope: Envelope)
    | SawCancel                      // the select took the ctx.Done() arm
    | Closed                         // the deferred Close
    | Reported                       // the deferred send on the stopped channel

  /** Where the goroutine is. `Unstarted` is a worker that is in the map but has no goroutine yet. */
  datatype Phase =
    | Unstarted
    | Creating
    | Looping(errorCount: nat)
    | Collecting(errorCount: nat)
    | Emitting(pending: seq<Metric>)
    | Closing
    | Sending
    | Exited

  function AfterEmit(rest: seq<Metric>): Phase {
    if rest == [] then Looping(0) else Emitting(rest)
  }

  function Next(guid: string, maxRetries: int, p: Phase, e: Event): Option<Phase> {
    match (p, e)
    case (Unstarted, Started) => Some(Creating)
    case (Creating, Created) => Some(Looping(0))
    case (Creating, CreateFailed) => Some(Sending)
    case (Looping(n), TimerFired) => Some(Collecting(n))
    case (Looping(n), SawCancel) => Some(Closing)
    case (Collecting(n), CollectFailed) => Some(if n + 1 <= maxRetries then Looping(n + 1) else Closing)
    case (Collecting(n), Collected(ms)) => Some(AfterEmit(ms))
    case (Emitting(ms), Emitted(env)) =>
      if ms != [] && env == Envelope(guid, ms[0]) then Some(AfterEmit(ms[1..])) else None
    case (Closing, Closed) => Some(Sending)
    case (Sending, Reported) => Some(Exited)
    case _ => None
  }

  function Replay(guid: string, maxRetries: int, log: seq<Event>): Option<Phase> {
    if log == [] then Some(Unstarted) else
    match Replay(guid, maxRetries, log[..|log| - 1])
    case None => None
    case Some(p) => Next(guid, maxRetries, p, log[|log| - 1])
  }

  lemma ReplaySnoc(guid: string, maxRetries: int, log: seq<Event>, e: Event)
    ensures Replay(guid, maxRetries, log + [e]) ==
            match Replay(guid, maxRetries, log)
            case None => None
            case Some(p) => Next(guid, maxRetries, p, e)
  {
    assert (log + [e])[..|log|] == log;
  }

  // ---- what a log says, independently of Next ----

  /** The results of the calls to Collect that have returned, in order; true is success. */
  function Outcomes(log: seq<Event>): seq<bool> {
    if log == [] then [] else
    var before := Outcomes(log[..|log| - 1]);
    match log[|log| - 1]
    case CollectFailed => before + [false]
    case Collected(_) => before + [true]
    case _ => before
  }

  /** All metrics returned by successful collections, in order. */
  function CollectedMetrics(log: seq<Event>): seq<Metric> {
    if log == [] then [] else
    var before := CollectedMetrics(log[..|log| - 1]);
    match log[|log| - 1]
    case Collected(ms) => before + ms
    case _ => before
  }

  /** All envelopes handed to the emitter, in order. */
  function EmittedEnvelopes(log: seq<Event>): seq<Envelope> {
    if log == [] then [] else
    var before := EmittedEnvelopes(log[..|log| - 1]);
    match log[|log| - 1]
    case Emitted(env) => before + [env]
    case _ => before
  }

  function Envelopes(guid: string, ms: seq<Metric>): seq<Envelope> {
    seq(|ms|, i requires 0 <= i < |ms| => Envelope(guid, ms[i]))
  }

  /** Exactly the last `k` outcomes are failures. */
  predicate FailingSuffix(outcomes: seq<bool>, k: nat) {
    && k <= |outcomes|
    && (forall i :: |outcomes| - k <= i < |outcomes| ==> !outcomes[i])
    && (k < |outcomes| ==> outcomes[|outcomes| - k - 1])
  }

  /** The number of consecutive failures at which a worker gives up. */
  function GiveUpAt(maxRetries: int): nat {
    if maxRetries < 0 then 1 else maxRetries + 1
  }

  predicate PastLoop(p: Phase) {
    p.Closing? || p.Sending? || p.Exited?
  }

  /** The collector exists: its creation succeeded and it has not been closed. */
  predicate HoldsCollector(log: seq<Event>) {
    Created in log && Closed !in log
  }

  predicate UsesCollector(e: Event) {
    e.TimerFired? || e.CollectFailed? || e.Collected? || e.Closed?
  }

  lemma LogSnoc(log: seq<Event>, e: Event)
    ensures Outcomes(log + [e]) == Outcomes(log) +
              if e.CollectFailed? then [false] else if e.Collected? then [true] else []
    ensures EmittedEnvelopes(log + [e]) == EmittedEnvelopes(log) + if e.Emitted? then [e.envelope] else []
  {
    assert (log + [e])[..|log|] == log;
  }

  // ---- worker semantics ----

  ghost predicate RetryState(maxRetries: int, log: seq<Event>, p: Phase) {
    var h := Outcomes(log);
    match p
    case Unstarted => h == []
    case Creating => h == []
    case Looping(n) => FailingSuffix(h, n) && n < GiveUpAt(maxRetries)
    case Collecting(n) => FailingSuffix(h, n) && n < GiveUpAt(maxRetries)
    case Emitting(_) => FailingSuffix(h, 0) && h != []
    case _ => true
  }

  /** The error count at the select is the length of the failing suffix, and stays under the limit. */
  lemma {:induction false} ErrorCountIsFailingSuffix(guid: string, maxRetries: int, log: seq<Event>)
    requires Replay(guid, maxRetries, log).Some?
    ensures RetryState(maxRetries, log, Replay(guid, maxRetries, log).value)
  {
    if log != [] {
      ErrorCountIsFailingSuffix(guid, maxRetries, log[..|log| - 1]);
    }
  }

  lemma FailingSuffixUnique(h: seq<bool>, j: nat, k: nat)
    requires FailingSuffix(h, j) && FailingSuffix(h, k)
    ensures j == k
  {
  }

  /** The collector is held exactly in the phases between its creation and its Close. */
  lemma {:induction false} HoldsCollectorByPhase(guid: string, maxRetries: int, log: seq<Event>)
    requires Replay(guid, maxRetries, log).Some?
    ensures var p := Replay(guid, maxRetries, log).value;
            && (HoldsCollector(log) <==> p.Looping? || p.Collecting? || p.Emitting? || p.Closing?)
            && (p.Unstarted? || p.Creating? ==> Created !in log && Closed !in log)
            && (Reported in log <==> p.Exited?)
    ensures Closed in log || SawCancel in log || Outcomes(log) != [] ==> Created in log
  {
    if log != [] {
      var init, e := log[..|log| - 1], log[|log| - 1];
      assert log == init + [e];
      HoldsCollectorByPhase(guid, maxRetries, init);
    }
  }

  lemma BelowLimitInLoop(maxRetries: int, log: seq<Event>, p: Phase)
    requires RetryState(maxRetries, log, p)
    ensures p.Looping? || p.Collecting? || p.Emitting? ==> !FailingSuffix(Outcomes(log), GiveUpAt(maxRetries))
  {
    if FailingSuffix(Outcomes(log), GiveUpAt(maxRetries)) {
      if p.Looping? || p.Collecting? {
        FailingSuffixUnique(Outcomes(log), p.errorCount, GiveUpAt(maxRetries));
      } else if p.Emitting? {
        FailingSuffixUnique(Outcomes(log), 0, GiveUpAt(maxRetries));
      }
    }
  }

  /**
    A worker with a collector leaves its loop for exactly two reasons: it observed cancellation, or
    the failing suffix of its collections reached the limit.
   */
  lemma {:induction false} GivesUpExactly(guid: string, maxRetries: int, log: seq<Event>)
    requires Replay(guid, maxRetries, log).Some?
    ensures Created in log ==>
              (PastLoop(Replay(guid, maxRetries, log).value)
               <==> SawCancel in log || FailingSuffix(Outcomes(log), GiveUpAt(maxRetries)))
  {
    if log != [] {
      var init, e := log[..|log| - 1], log[|log| - 1];
      assert log == init + [e];
      GivesUpExactly(guid, maxRetries, init);
      HoldsCollectorByPhase(guid, maxRetries, init);
      ErrorCountIsFailingSuffix(guid, maxRetries, init);
      ErrorCountIsFailingSuffix(guid, maxRetries, log);
      BelowLimitInLoop(maxRetries, log, Replay(guid, maxRetries, log).value);
    }
  }

  function Pending(p: Phase): seq<Metric> {
    if p.Emitting? then p.pending else []
  }

  /**
    The emitted sequence is the in-order concatenation of the metrics of the successful collections,
    short only of what the worker is still emitting. Failed collections contribute nothing.
   */
  lemma {:induction false} EmitsWhatItCollects(guid: string, maxRetries: int, log: seq<Event>)
    requires Replay(guid, maxRetries, log).Some?
    ensures Envelopes(guid, CollectedMetrics(log)) ==
            EmittedEnvelopes(log) + Envelopes(guid, Pending(Replay(guid, maxRetries, log).value))
  {
    if log != [] {
      var init, e := log[..|log| - 1], log[|log| - 1];
      EmitsWhatItCollects(guid, maxRetries, init);
      var p := Replay(guid, maxRetries, init).value;
      if e.Collected? {
        assert Envelopes(guid, CollectedMetrics(init) + e.metrics)
            == Envelopes(guid, CollectedMetrics(init)) + Envelopes(guid, e.metrics);
      } else if e.Emitted? {
        assert Envelopes(guid, p.pending) == [e.envelope] + Envelopes(guid, p.pending[1..]);
      }
    }
  }

  /**
    Close comes after a successful creation, nothing touches the collector before its creation or
    from its Close on, and the report to the scheduler is the last thing of all.
   */
  ghost predicate CloseDiscipline(log: seq<Event>) {
    && multiset(log)[Created] <= 1
    && multiset(log)[Closed] <= 1
    && (forall i :: 0 <= i < |log| && UsesCollector(log[i]) ==> HoldsCollector(log[..i]))
    && (forall i :: 0 <= i < |log| && log[i].Closed? ==> forall j :: i < j < |log| ==> log[j].Reported?)
    && (forall i :: 0 <= i < |log| && log[i].Reported? ==> i == |log| - 1 && !HoldsCollector(log[..i]))
  }

  lemma DisciplineSnoc(init: seq<Event>, e: Event)
    requires CloseDiscipline(init) && Reported !in init
    requires Closed in init ==> e.Reported?
    requires e.Created? ==> Created !in init
    requires UsesCollector(e) ==> HoldsCollector(init)
    requires e.Reported? ==> !HoldsCollector(init)
    ensures CloseDiscipline(init + [e])
  {
    var log := init + [e];
    assert forall i :: 0 <= i <= |init| ==> log[..i] == init[..i];
    assert init[..|init|] == init;
  }

  /** Every log keeps the discipline, and a worker that has exited closed what it created. */
  lemma {:induction false} ClosesOnce(guid: string, maxRetries: int, log: seq<Event>)
    requires Replay(guid, maxRetries, log).Some?
    ensures CloseDiscipline(log)
    ensures Replay(guid, maxRetries, log).value.Exited? ==>
              Reported in log && multiset(log)[Closed] == multiset(log)[Created]
  {
    if log != [] {
      var init, e := log[..|log| - 1], log[|log| - 1];
      assert log == init + [e];
      ClosesOnce(guid, maxRetries, init);
      HoldsCollectorByPhase(guid, maxRetries, init);
      DisciplineSnoc(init, e);
      HoldsCollectorByPhase(guid, maxRetries, log);
    }
  }
}
