/** The scheduler's guarantees in every reachable state. */
module Guarantees {
  import opened Types
  import opened WorkerLog
  import opened Desired
  import opened Protocol
  import opened Invariant

  // ---- one token per key ----

  function LiveCount(routines: seq<Routine>, id: WorkerId): nat {
    if routines == [] then 0 else
    var w := routines[|routines| - 1];
    LiveCount(routines[..|routines| - 1], id) + if w.id == id && Live(w) then 1 else 0
  }

  /** Workers of that name that have not exited, plus reports of that name on their way to the map. */
  function Tokens(s: State, id: WorkerId): nat {
    LiveCount(s.routines, id) + multiset(s.channel)[id] + if Deleting(s.pc) && s.pc.id == id then 1 else 0
  }

  lemma {:induction false} LiveCountUnique(routines: seq<Routine>, id: WorkerId)
    requires forall q, r :: 0 <= q < r < |routines| && Live(routines[q]) && Live(routines[r]) ==>
               !(routines[q].id == routines[r].id == id)
    ensures LiveCount(routines, id) <= 1
    ensures LiveCount(routines, id) == 1 <==>
            exists r :: 0 <= r < |routines| && routines[r].id == id && Live(routines[r])
  {
    if routines != [] {
      var init := routines[..|routines| - 1];
      LiveCountUnique(init, id);
      assert routines == init + [routines[|routines| - 1]];
    }
  }

  lemma TokensFromInvariant(s: State, id: WorkerId)
    requires TokensOk(s)
    ensures Tokens(s, id) == if id in s.workers then 1 else 0
  {
    LiveCountUnique(s.routines, id);
    assert s.channel == [] || s.channel == [s.channel[0]];
    assert multiset(s.channel)[id] == if id in s.channel then 1 else 0;
    if id in s.workers {
      var w := s.routines[s.workers[id]];
      assert w.id == id;
      assert ExitedKey(s, id) <==> !Live(w);
    }
  }

  /** Each key of the map has exactly one token and no token exists without a key. */
  lemma OneTokenPerKey(c: Config, labels: seq<Label>, id: WorkerId)
    requires IsRun(c, Init(), labels)
    ensures var s := Exec(c, Init(), labels);
            Tokens(s, id) == if id in s.workers then 1 else 0
  {
    ReachableInv(c, labels);
    TokensFromInvariant(Exec(c, Init(), labels), id);
  }

  /** Two collectors for the same driver and instance never exist at the same time. */
  lemma CollectorsNeverCoexist(c: Config, labels: seq<Label>, q: nat, r: nat)
    requires IsRun(c, Init(), labels)
    requires var s := Exec(c, Init(), labels); q < r < |s.routines| && s.routines[q].id == s.routines[r].id
    ensures var s := Exec(c, Init(), labels);
            !(HoldsCollector(LogOf(s.trace, q)) && HoldsCollector(LogOf(s.trace, r)))
  {
    ReachableInv(c, labels);
    var s := Exec(c, Init(), labels);
    HoldsCollectorByPhase(s.routines[q].id.instanceGuid, c.maxRetries, LogOf(s.trace, q));
    HoldsCollectorByPhase(s.routines[r].id.instanceGuid, c.maxRetries, LogOf(s.trace, r));
  }

  // ---- the WaitGroup ----

  /**
    The counter equals the number of keys, less one in the middle of startWorker and deleteWorker.
    It is never negative, is positive whenever Done is about to run, and deleteWorker always removes
    a key that is present.
   */
  lemma WaitGroupCountsKeys(c: Config, labels: seq<Label>)
    requires IsRun(c, Init(), labels)
    ensures var s := Exec(c, Init(), labels);
            && s.waitGroup == |s.workers| - (if s.pc.Inserted? || s.pc.Counted? then 1 else 0)
            && s.waitGroup >= 0
            && (s.pc.Received? ==> s.waitGroup >= 1)
            && (s.pc.Received? || s.pc.Counted? ==> s.pc.id in s.workers)
  {
    ReachableInv(c, labels);
    var s := Exec(c, Init(), labels);
    if Deleting(s.pc) || InStartWorker(s.pc) {
      assert s.pc.id in s.workers.Keys;
      assert |s.workers.Keys| >= |{s.pc.id}|;
    }
  }

  // ---- what each worker does ----

  /**
    In every run and for every worker: the error count at its select is the length of the failing
    suffix of its collections; it has left its loop iff it saw cancellation or that suffix reached the
    limit; what it emitted is what its successful collections returned, short of what it is emitting;
    and its collector is created and closed at most once and used only in between.
   */
  lemma WorkerSemantics(c: Config, labels: seq<Label>, r: nat)
    requires IsRun(c, Init(), labels) && r < |Exec(c, Init(), labels).routines|
    ensures var s := Exec(c, Init(), labels);
            var w, log := s.routines[r], LogOf(s.trace, r);
            && (w.phase.Looping? ==> FailingSuffix(Outcomes(log), w.phase.errorCount))
            && (Created in log ==>
                  (PastLoop(w.phase) <==> SawCancel in log || FailingSuffix(Outcomes(log), GiveUpAt(c.maxRetries))))
            && Envelopes(w.id.instanceGuid, CollectedMetrics(log)) ==
               EmittedEnvelopes(log) + Envelopes(w.id.instanceGuid, Pending(w.phase))
            && CloseDiscipline(log)
  {
    ReachableInv(c, labels);
    var s := Exec(c, Init(), labels);
    var guid, log := s.routines[r].id.instanceGuid, LogOf(s.trace, r);
    ErrorCountIsFailingSuffix(guid, c.maxRetries, log);
    GivesUpExactly(guid, c.maxRetries, log);
    EmitsWhatItCollects(guid, c.maxRetries, log);
    ClosesOnce(guid, c.maxRetries, log);
  }

  // ---- quiescence ----

  ghost predicate AllExited(s: State) {
    forall r :: 0 <= r < |s.routines| ==> s.routines[r].phase.Exited?
  }

  /** What the log of a finished worker shows. */
  ghost predicate CleanLog(guid: string, log: seq<Event>) {
    && CloseDiscipline(log)
    && multiset(log)[Closed] == multiset(log)[Created]
    && EmittedEnvelopes(log) == Envelopes(guid, CollectedMetrics(log))
  }

  lemma ExitedLogIsClean(c: Config, s: State, r: nat)
    requires LogsOk(c, s) && r < |s.routines| && s.routines[r].phase.Exited?
    ensures CleanLog(s.routines[r].id.instanceGuid, LogOf(s.trace, r))
  {
    var guid, log := s.routines[r].id.instanceGuid, LogOf(s.trace, r);
    ClosesOnce(guid, c.maxRetries, log);
    EmitsWhatItCollects(guid, c.maxRetries, log);
  }

  lemma SomeMember<T>(xs: seq<T>)
    ensures xs != [] ==> exists x :: x in xs
  {
    if xs != [] {
      assert xs[0] in xs;
    }
  }

  lemma NoKeysMeansIdle(s: State)
    requires TokensOk(s) && s.workers == map[]
    ensures AllExited(s) && s.channel == []
  {
    SomeMember(s.channel);
  }

  lemma NothingFollowsReturn(c: Config, s: State, l: Label)
    requires AllExited(s) && s.pc.Returned? && s.rootCancelled
    ensures !Enabled(c, s, l)
  {
  }

  /**
    When Run returns: no key, no goroutine live or blocked, nothing in the channel, a zero WaitGroup,
    every collector that was created closed exactly once and never used after, every collected metric
    emitted, and nothing more can happen.
   */
  lemma QuiescentWhenRunReturns(c: Config, labels: seq<Label>)
    requires IsRun(c, Init(), labels) && Exec(c, Init(), labels).pc.Returned?
    ensures var s := Exec(c, Init(), labels);
            && s.workers == map[] && s.channel == [] && s.waitGroup == 0 && s.rootCancelled
            && AllExited(s)
            && (forall r :: 0 <= r < |s.routines| ==> CleanLog(s.routines[r].id.instanceGuid, LogOf(s.trace, r)))
            && (forall l :: !Enabled(c, s, l))
  {
    ReachableInv(c, labels);
    var s := Exec(c, Init(), labels);
    NoKeysMeansIdle(s);
    forall r | 0 <= r < |s.routines|
      ensures CleanLog(s.routines[r].id.instanceGuid, LogOf(s.trace, r))
    {
      ExitedLogIsClean(c, s, r);
    }
    forall l ensures !Enabled(c, s, l) {
      NothingFollowsReturn(c, s, l);
    }
  }

  // ---- provenance ----

  ghost predicate ListedBefore(trace: seq<TraceEvent>, n: nat, info: InstanceInfo) {
    exists j :: 0 <= j < n && j < |trace| && trace[j].Listing? && info in trace[j].infos
  }

  /** A registered driver that supports the instance, and an instance that was listed. */
  ghost predicate Sourced(c: Config, trace: seq<TraceEvent>, id: WorkerId, info: InstanceInfo) {
    Wants(c.drivers, info, id) && ListedBefore(trace, |trace|, info)
  }

  ghost predicate EmissionSourced(trace: seq<TraceEvent>, i: nat)
    requires i < |trace| && trace[i].Did? && trace[i].event.Emitted?
  {
    exists info: InstanceInfo :: info.guid == trace[i].event.envelope.instanceGuid && ListedBefore(trace, i, info)
  }

  ghost predicate RoutinesSourced(c: Config, s: State) {
    forall r :: 0 <= r < |s.routines| ==>
      && Sourced(c, s.trace, s.routines[r].id, s.routines[r].info)
      && s.routines[r].driver == Some(c.drivers[s.routines[r].id.driver])
  }

  ghost predicate DesiredSourced(c: Config, s: State) {
    s.pc.Starting? || InStartWorker(s.pc) ==>
      forall id :: id in s.pc.desired ==> Sourced(c, s.trace, id, s.pc.desired[id])
  }

  ghost predicate EmissionsSourced(trace: seq<TraceEvent>) {
    forall i :: 0 <= i < |trace| && trace[i].Did? && trace[i].event.Emitted? ==> EmissionSourced(trace, i)
  }

  ghost predicate AllSourced(c: Config, s: State) {
    RoutinesSourced(c, s) && DesiredSourced(c, s) && EmissionsSourced(s.trace)
  }

  lemma ListedStays(trace: seq<TraceEvent>, t: TraceEvent, n: nat, info: InstanceInfo)
    requires ListedBefore(trace, n, info)
    ensures ListedBefore(trace + [t], n, info) && ListedBefore(trace + [t], |trace| + 1, info)
  {
    var j :| 0 <= j < n && j < |trace| && trace[j].Listing? && info in trace[j].infos;
    assert (trace + [t])[j] == trace[j];
  }

  lemma EmissionsStay(trace: seq<TraceEvent>, t: TraceEvent)
    requires EmissionsSourced(trace)
    requires t.Did? && t.event.Emitted? ==>
               exists info: InstanceInfo ::
                 info.guid == t.event.envelope.instanceGuid && ListedBefore(trace, |trace|, info)
    ensures EmissionsSourced(trace + [t])
  {
    var trace' := trace + [t];
    forall i | 0 <= i < |trace'| && trace'[i].Did? && trace'[i].event.Emitted?
      ensures EmissionSourced(trace', i)
    {
      assert i < |trace| ==> EmissionSourced(trace, i);
      var info: InstanceInfo :| info.guid == trace'[i].event.envelope.instanceGuid && ListedBefore(trace, i, info);
      ListedStays(trace, t, i, info);
    }
  }

  lemma SourcedStays(c: Config, trace: seq<TraceEvent>, t: TraceEvent)
    ensures forall id, info :: Sourced(c, trace, id, info) ==> Sourced(c, trace + [t], id, info)
  {
    forall id, info | Sourced(c, trace, id, info)
      ensures Sourced(c, trace + [t], id, info)
    {
      ListedStays(trace, t, |trace|, info);
    }
  }

  lemma ListingSourcesDesired(c: Config, trace: seq<TraceEvent>, infos: seq<InstanceInfo>, id: WorkerId)
    requires id in DesiredWorkers(c.drivers, infos)
    ensures Sourced(c, trace + [Listing(infos)], id, DesiredWorkers(c.drivers, infos)[id])
  {
    DesiredIsLastWanting(c.drivers, infos, id);
    var i :| LastWanting(c.drivers, infos, id, i);
    assert (trace + [Listing(infos)])[|trace|] == Listing(infos);
  }

  lemma ListingKeepsSourced(c: Config, s: State, infos: seq<InstanceInfo>)
    requires AllSourced(c, s) && Enabled(c, s, Listed(infos))
    ensures AllSourced(c, Apply(c, s, Listed(infos)))
  {
    SourcedStays(c, s.trace, Listing(infos));
    EmissionsStay(s.trace, Listing(infos));
    var s' := Apply(c, s, Listed(infos));
    forall id | id in s'.pc.desired
      ensures Sourced(c, s'.trace, id, s'.pc.desired[id])
    {
      ListingSourcesDesired(c, s.trace, infos, id);
    }
  }

  lemma WorkKeepsSourced(c: Config, s: State, r: nat, e: Event)
    requires AllSourced(c, s) && WorkEnabled(c, s, r, e)
    ensures AllSourced(c, DoWork(c, s, r, e))
  {
    SourcedStays(c, s.trace, Did(r, e));
    assert Sourced(c, s.trace, s.routines[r].id, s.routines[r].info);
    EmissionsStay(s.trace, Did(r, e));
  }

  lemma GoKeepsSourced(c: Config, s: State)
    requires AllSourced(c, s) && Enabled(c, s, Go)
    ensures AllSourced(c, DoGo(s))
  {
    var t := Did(s.workers[s.pc.id], Started);
    SourcedStays(c, s.trace, t);
    EmissionsStay(s.trace, t);
  }

  lemma QuietStepKeepsSourced(c: Config, s: State, l: Label)
    requires StartOk(s) && AllSourced(c, s) && Enabled(c, s, l) && !l.Listed? && !l.Go? && !l.Work?
    ensures AllSourced(c, Apply(c, s, l))
  {
    var s' := Apply(c, s, l);
    assert s'.trace == s.trace;
  }

  lemma StepKeepsSourced(c: Config, s: State, l: Label)
    requires Inv(c, s) && AllSourced(c, s) && Enabled(c, s, l)
    ensures AllSourced(c, Apply(c, s, l))
  {
    if l.Listed? {
      ListingKeepsSourced(c, s, l.infos);
    } else if l.Work? {
      WorkKeepsSourced(c, s, l.r, l.event);
    } else if l.Go? {
      GoKeepsSourced(c, s);
    } else {
      QuietStepKeepsSourced(c, s, l);
    }
  }

  lemma {:induction false} RunKeepsSourced(c: Config, s: State, labels: seq<Label>)
    requires Inv(c, s) && AllSourced(c, s) && IsRun(c, s, labels)
    ensures AllSourced(c, Exec(c, s, labels))
    decreases |labels|
  {
    if labels != [] {
      StepKeepsInv(c, s, labels[0]);
      StepKeepsSourced(c, s, labels[0]);
      RunKeepsSourced(c, Apply(c, s, labels[0]), labels[1..]);
    }
  }

  /**
    Every worker ever started holds the registered driver of its name, which supports its instance's
    type, and an instance whose GUID is in its name; every envelope ever emitted carries a GUID that
    an earlier listing returned.
   */
  lemma EverythingIsSourced(c: Config, labels: seq<Label>)
    requires IsRun(c, Init(), labels)
    ensures var s := Exec(c, Init(), labels);
            && RoutinesSourced(c, s)
            && EmissionsSourced(s.trace)
  {
    RunKeepsSourced(c, Init(), labels);
  }
}
