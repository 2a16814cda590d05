/**
  The scheduler's main loop, its worker goroutines, the one-slot channel, the WaitGroup and the
  cancellation contexts, as one labelled transition system.

  A label names the next atomic action of one participant and carries everything the outside world
  decides (what was listed, what a collection returned, which key a map iteration visits next), so
  that a run is a sequence of labels and every interleaving is some sequence.
 */
module Protocol {
  import opened Types
  import opened WorkerLog
  import opened Desired

  datatype Config = Config(drivers: map<string, Driver>, maxRetries: int)

  /** A worker object and its goroutine. The WorkerId map refers to it by its position in `routines`. */
  datatype Routine = Routine(id: WorkerId, info: InstanceInfo, driver: Option<Driver>, cancelled: bool, phase: Phase)

  /** Where the main loop is. */
  datatype Pc =
    | AtSelect
    | Starting(desired: map<WorkerId, InstanceInfo>, todo: set<WorkerId>)
    | Inserted(desired: map<WorkerId, InstanceInfo>, todo: set<WorkerId>, id: WorkerId) // in startWorker, before Add
    | Added(desired: map<WorkerId, InstanceInfo>, todo: set<WorkerId>, id: WorkerId)    // in startWorker, before go
    | Cancelling(desired: map<WorkerId, InstanceInfo>, todo: set<WorkerId>)
    | Received(id: WorkerId, draining: bool) // in deleteWorker, before Done
    | Counted(id: WorkerId, draining: bool)  // in deleteWorker, before delete
    | Draining
    | Returned

  datatype TraceEvent = Listing(infos: seq<InstanceInfo>) | Did(r: nat, event: Event)

  datatype State = State(
    pc: Pc,
    workers: map<WorkerId, nat>,
    routines: seq<Routine>,
    channel: seq<WorkerId>,
    waitGroup: int,
    rootCancelled: bool,
    logTimerArmed: bool,
    trace: seq<TraceEvent>)

  datatype Label =
    // main loop, select arms
    | ListFailed
    | Listed(infos: seq<InstanceInfo>)
    | Receive
    | Signal
    | SeeCancel
    // main loop, inside a refresh
    | VisitDesired(id: WorkerId)
    | Add
    | Go
    | EndStarts
    | VisitWorker(id: WorkerId)
    | EndRefresh
    // main loop, inside deleteWorker
    | Done
    | Delete
    // main loop, inside the deferred drain
    | LogTimeout
    | Return
    // other goroutines
    | StopCalled
    | Work(r: nat, event: Event)

  /** Steps that are not the main loop's. */
  predicate IsOther(l: Label) {
    l.StopCalled? || l.Work?
  }

  function Init(): State {
    State(AtSelect, map[], [], [], 0, false, true, [])
  }

  function Lookup(c: Config, d: string): Option<Driver> {
    if d in c.drivers then Some(c.drivers[d]) else None
  }

  function Advance(c: Config, w: Routine, e: Event): Option<Phase> {
    Next(w.id.instanceGuid, c.maxRetries, w.phase, e)
  }

  /** The worker's context is done: its own cancel was called, or the root's. */
  predicate ContextDone(s: State, r: nat)
    requires r < |s.routines|
  {
    s.rootCancelled || s.routines[r].cancelled
  }

  predicate WorkEnabled(c: Config, s: State, r: nat, e: Event) {
    && r < |s.routines|
    && !e.Started?
    && Advance(c, s.routines[r], e).Some?
    && (e.SawCancel? ==> ContextDone(s, r))
    && (e.Reported? ==> |s.channel| < 1)
  }

  predicate Enabled(c: Config, s: State, l: Label) {
    match l
    case ListFailed => s.pc.AtSelect?
    case Listed(_) => s.pc.AtSelect?
    case Receive => (s.pc.AtSelect? || (s.pc.Draining? && s.workers != map[])) && s.channel != []
    case Signal => s.pc.AtSelect?
    case SeeCancel => s.pc.AtSelect? && s.rootCancelled
    case VisitDesired(id) => s.pc.Starting? && id in s.pc.todo && id in s.pc.desired
    case Add => s.pc.Inserted?
    case Go => s.pc.Added? && s.pc.id in s.workers && s.workers[s.pc.id] < |s.routines|
    case EndStarts => s.pc.Starting? && s.pc.todo == {}
    case VisitWorker(id) =>
      s.pc.Cancelling? && id in s.pc.todo && id in s.workers && s.workers[id] < |s.routines|
    case EndRefresh => s.pc.Cancelling? && s.pc.todo == {}
    case Done => s.pc.Received?
    case Delete => s.pc.Counted?
    case LogTimeout => s.pc.Draining? && s.workers != map[] && s.logTimerArmed
    case Return => s.pc.Draining? && s.workers == map[]
    case StopCalled => !s.rootCancelled
    case Work(r, e) => WorkEnabled(c, s, r, e)
  }

  function SetPhase(routines: seq<Routine>, r: nat, p: Phase): seq<Routine>
    requires r < |routines|
  {
    routines[r := routines[r].(phase := p)]
  }

  function DoWork(c: Config, s: State, r: nat, e: Event): State
    requires WorkEnabled(c, s, r, e)
  {
    s.(routines := SetPhase(s.routines, r, Advance(c, s.routines[r], e).value),
       channel := if e.Reported? then s.channel + [s.routines[r].id] else s.channel,
       trace := s.trace + [Did(r, e)])
  }

  function DoGo(s: State): State
    requires s.pc.Added? && s.pc.id in s.workers && s.workers[s.pc.id] < |s.routines|
  {
    var r := s.workers[s.pc.id];
    s.(pc := Starting(s.pc.desired, s.pc.todo),
       routines := SetPhase(s.routines, r, Creating),
       trace := s.trace + [Did(r, Started)])
  }

  function DoVisitDesired(c: Config, s: State, id: WorkerId): State
    requires s.pc.Starting? && id in s.pc.desired
  {
    var todo := s.pc.todo - {id};
    if id in s.workers then s.(pc := Starting(s.pc.desired, todo)) else
    s.(pc := Inserted(s.pc.desired, todo, id),
       workers := s.workers[id := |s.routines|],
       routines := s.routines + [Routine(id, s.pc.desired[id], Lookup(c, id.driver), false, Unstarted)])
  }

  function DoVisitWorker(s: State, id: WorkerId): State
    requires s.pc.Cancelling? && id in s.workers && s.workers[id] < |s.routines|
  {
    var r := s.workers[id];
    s.(pc := Cancelling(s.pc.desired, s.pc.todo - {id}),
       routines := if id in s.pc.desired then s.routines
                   else s.routines[r := s.routines[r].(cancelled := true)])
  }

  function Apply(c: Config, s: State, l: Label): State
    requires Enabled(c, s, l)
  {
    match l
    case ListFailed => s
    case Listed(infos) =>
      var desired := DesiredWorkers(c.drivers, infos);
      s.(pc := Starting(desired, desired.Keys), trace := s.trace + [Listing(infos)])
    case Receive => s.(pc := Received(s.channel[0], s.pc.Draining?), channel := s.channel[1..])
    case Signal => s.(pc := Draining, rootCancelled := true)
    case SeeCancel => s.(pc := Draining)
    case VisitDesired(id) => DoVisitDesired(c, s, id)
    case Add => s.(pc := Added(s.pc.desired, s.pc.todo, s.pc.id), waitGroup := s.waitGroup + 1)
    case Go => DoGo(s)
    case EndStarts => s.(pc := Cancelling(s.pc.desired, s.workers.Keys))
    case VisitWorker(id) => DoVisitWorker(s, id)
    case EndRefresh => s.(pc := AtSelect)
    case Done => s.(pc := Counted(s.pc.id, s.pc.draining), waitGroup := s.waitGroup - 1)
    case Delete => s.(pc := if s.pc.draining then Draining else AtSelect, workers := s.workers - {s.pc.id})
    case LogTimeout => s.(logTimerArmed := false)
    case Return => s.(pc := Returned)
    case StopCalled => s.(rootCancelled := true)
    case Work(r, e) => DoWork(c, s, r, e)
  }

  /** `labels` can be taken one after the other from `s`. */
  predicate IsRun(c: Config, s: State, labels: seq<Label>)
    decreases |labels|
  {
    labels == [] || (Enabled(c, s, labels[0]) && IsRun(c, Apply(c, s, labels[0]), labels[1..]))
  }

  function Exec(c: Config, s: State, labels: seq<Label>): State
    requires IsRun(c, s, labels)
    decreases |labels|
  {
    if labels == [] then s else Exec(c, Apply(c, s, labels[0]), labels[1..])
  }

  lemma {:induction false} RunConcat(c: Config, s: State, a: seq<Label>, b: seq<Label>)
    requires IsRun(c, s, a)
    ensures IsRun(c, s, a + b) <==> IsRun(c, Exec(c, s, a), b)
    ensures IsRun(c, s, a + b) ==> Exec(c, s, a + b) == Exec(c, Exec(c, s, a), b)
    decreases |a|
  {
    if a == [] {
      assert a + b == b;
    } else {
      assert (a + b)[1..] == a[1..] + b;
      RunConcat(c, Apply(c, s, a[0]), a[1..], b);
    }
  }

  lemma RunOne(c: Config, s: State, l: Label)
    requires Enabled(c, s, l)
    ensures IsRun(c, s, [l]) && Exec(c, s, [l]) == Apply(c, s, l)
  {
    assert [l][1..] == [];
  }

  /** The events of worker `r`, in order. */
  function LogOf(trace: seq<TraceEvent>, r: nat): seq<Event> {
    if trace == [] then [] else
    var before := LogOf(trace[..|trace| - 1], r);
    match trace[|trace| - 1]
    case Did(q, e) => if q == r then before + [e] else before
    case Listing(_) => before
  }

  lemma LogOfSnoc(trace: seq<TraceEvent>, t: TraceEvent, r: nat)
    ensures LogOf(trace + [t], r) ==
            if t.Did? && t.r == r then LogOf(trace, r) + [t.event] else LogOf(trace, r)
  {
    assert (trace + [t])[..|trace|] == trace;
  }
}
