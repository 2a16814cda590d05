/**
  The scheduler itself: its fields, and its methods with their loops. Each method is shown to take
  exactly the main loop's steps of the protocol, with the other goroutines interleaving arbitrarily
  at every point where Go may run them, so everything proved of protocol runs holds of it.
 */
module SchedulerProcess {
  import opened Types
  import opened Desired
  import opened Protocol
  import opened Invariant
  import opened Guarantees
  import opened Refresh
  import WorkerLog

  const DEFAULT_RETRY_INTERVAL := 1000       // milliseconds
  const DEFAULT_MAX_RETRIES := 3
  const DEFAULT_COLLECTOR_TIMEOUT := 15_000  // milliseconds

  function OrDefault(setting: Option<int>, value: int): int {
    if setting.Some? then setting.value else value
  }

  method SliceContainsString(xs: seq<string>, v: string) returns (found: bool)
    ensures found <==> v in xs
  {
    for i := 0 to |xs|
      invariant v !in xs[..i]
    {
      if xs[i] == v {
        return true;
      }
    }
    return false;
  }

  /** A worker object, as startWorker fills it in; `cancelled` is the state of its own context. */
  datatype WorkerObject = WorkerObject(id: WorkerId, info: InstanceInfo, driver: Option<Driver>, cancelled: bool)

  /** The arm that a select of the main loop picks, with what the outside world supplies. */
  datatype Arm = TimerArm(listing: Option<seq<InstanceInfo>>) | StoppedArm | SignalArm | DoneArm

  datatype DrainArm = DrainStopped | DrainTimeout

  predicate Mirror(w: WorkerObject, r: Routine) {
    w.id == r.id && w.info == r.info && w.driver == r.driver && w.cancelled == r.cancelled
  }

  predicate AllOthers(labels: seq<Label>) {
    forall i :: 0 <= i < |labels| ==> IsOther(labels[i])
  }

  /** The listings in a trace, in order. Only the main loop makes them. */
  function Listings(trace: seq<TraceEvent>): seq<seq<InstanceInfo>> {
    if trace == [] then [] else
    var last := trace[|trace| - 1];
    Listings(trace[..|trace| - 1]) + if last.Listing? then [last.infos] else []
  }

  lemma ListingsSnoc(trace: seq<TraceEvent>, t: TraceEvent)
    ensures Listings(trace + [t]) == Listings(trace) + if t.Listing? then [t.infos] else []
  {
    assert (trace + [t])[..|trace|] == trace;
  }

  /** A step that lists nothing and receives nothing adds no listing, and only adds to the channel. */
  lemma StepLists(c: Config, s: State, l: Label)
    requires Enabled(c, s, l) && !l.Listed?
    ensures Listings(Apply(c, s, l).trace) == Listings(s.trace)
    ensures !l.Receive? ==> s.channel <= Apply(c, s, l).channel
    ensures s.rootCancelled ==> Apply(c, s, l).rootCancelled
  {
    if l.Work? {
      ListingsSnoc(s.trace, Did(l.r, l.event));
    } else if l.Go? {
      ListingsSnoc(s.trace, Did(s.workers[s.pc.id], WorkerLog.Started));
    }
  }

  lemma {:induction false} RefreshListsNoMore(c: Config, s: State, mid: seq<Label>)
    requires InRefresh(s.pc) && EndRefresh !in mid && IsRun(c, s, mid + [EndRefresh])
    ensures var s' := Exec(c, s, mid + [EndRefresh]);
            && Listings(s'.trace) == Listings(s.trace) && s.channel <= s'.channel
            && (s.rootCancelled ==> s'.rootCancelled)
    decreases |mid|
  {
    if mid == [] {
      assert mid + [EndRefresh] == [EndRefresh];
      RunOne(c, s, EndRefresh);
    } else {
      var l := mid[0];
      assert (mid + [EndRefresh])[1..] == mid[1..] + [EndRefresh];
      StepLists(c, s, l);
      RefreshListsNoMore(c, Apply(c, s, l), mid[1..]);
    }
  }

  /** A refresh makes exactly its one listing, whatever the others do meanwhile. */
  lemma RefreshListsOnce(c: Config, s: State, infos: seq<InstanceInfo>, mid: seq<Label>)
    requires EndRefresh !in mid && IsRun(c, s, RefreshLabels(infos, mid))
    ensures var s' := Exec(c, s, RefreshLabels(infos, mid));
            && Listings(s'.trace) == Listings(s.trace) + [infos] && s.channel <= s'.channel
            && (s.rootCancelled ==> s'.rootCancelled)
  {
    assert RefreshLabels(infos, mid)[1..] == mid + [EndRefresh];
    ListingsSnoc(s.trace, Listing(infos));
    RefreshListsNoMore(c, Apply(c, s, Listed(infos)), mid);
  }

  /** What the arms of a select list. */
  function ListingOf(arm: Arm): seq<seq<InstanceInfo>> {
    if arm.TimerArm? && arm.listing.Some? then [arm.listing.value] else []
  }

  function ArmListings(arms: seq<Arm>): seq<seq<InstanceInfo>> {
    if arms == [] then [] else ArmListings(arms[..|arms| - 1]) + ListingOf(arms[|arms| - 1])
  }

  lemma ArmsSnoc(arms: seq<Arm>, i: nat)
    requires i < |arms|
    ensures ArmListings(arms[..i + 1]) == ArmListings(arms[..i]) + ListingOf(arms[i])
    ensures |arms[..i + 1]| == i + 1 && arms[..i + 1][i] == arms[i]
    ensures forall a :: a in arms[..i + 1] <==> a in arms[..i] || a == arms[i]
  {
    assert arms[..i + 1] == arms[..i] + [arms[i]];
  }

  /** What the steps of other goroutines leave alone: all that belongs to the main loop. */
  ghost predicate MainUntouched(s: State, s': State) {
    && s'.pc == s.pc && s'.workers == s.workers && s'.waitGroup == s.waitGroup && s'.logTimerArmed == s.logTimerArmed
    && |s'.routines| == |s.routines|
    && (forall r :: 0 <= r < |s.routines| ==> s'.routines[r] == s.routines[r].(phase := s'.routines[r].phase))
    && (s.rootCancelled ==> s'.rootCancelled)
    && s.channel <= s'.channel && Listings(s'.trace) == Listings(s.trace)
  }

  lemma {:induction false} OthersLeaveMainAlone(c: Config, s: State, labels: seq<Label>)
    requires AllOthers(labels) && IsRun(c, s, labels)
    ensures MainUntouched(s, Exec(c, s, labels))
    decreases |labels|
  {
    if labels != [] {
      assert IsOther(labels[0]);
      StepLists(c, s, labels[0]);
      OthersLeaveMainAlone(c, Apply(c, s, labels[0]), labels[1..]);
    }
  }

  /** The workers that the drivers `names` contribute for one instance. */
  function ForDrivers(drivers: map<string, Driver>, names: set<string>, info: InstanceInfo): Wanted {
    map d | d in names && Supports(drivers, d, info.kind) :: WorkerId(d, info.guid) := info
  }

  lemma OneMoreDriver(drivers: map<string, Driver>, base: map<WorkerId, InstanceInfo>, names: set<string>,
                      d: string, info: InstanceInfo)
    ensures base + ForDrivers(drivers, names + {d}, info) ==
            var partial := base + ForDrivers(drivers, names, info);
            if Supports(drivers, d, info.kind) then partial[WorkerId(d, info.guid) := info] else partial
  {
    var some, all := ForDrivers(drivers, names, info), ForDrivers(drivers, names + {d}, info);
    assert all == if Supports(drivers, d, info.kind) then some[WorkerId(d, info.guid) := info] else some;
  }

  lemma AllDrivers(drivers: map<string, Driver>, info: InstanceInfo)
    ensures ForDrivers(drivers, drivers.Keys, info) == ForInstance(drivers, info)
    ensures ForDrivers(drivers, {}, info) == map[]
  {
  }

  /** The registry after registering `ds` in order. */
  function Registered(drivers: map<string, Driver>, ds: seq<Driver>): map<string, Driver> {
    if ds == [] then drivers else
    Registered(drivers, ds[..|ds| - 1])[ds[|ds| - 1].name := ds[|ds| - 1]]
  }

  ghost predicate LastNamed(ds: seq<Driver>, name: string, i: int) {
    0 <= i < |ds| && ds[i].name == name && forall j :: i < j < |ds| ==> ds[j].name != name
  }

  /** A driver is registered under its own name, the last of a name winning, and others stay. */
  lemma {:induction false} RegisteredByName(drivers: map<string, Driver>, ds: seq<Driver>, name: string)
    requires forall d :: d in drivers ==> drivers[d].name == d
    ensures forall d :: d in Registered(drivers, ds) ==> Registered(drivers, ds)[d].name == d
    ensures name in Registered(drivers, ds) <==> name in drivers || exists i :: LastNamed(ds, name, i)
    ensures forall i :: LastNamed(ds, name, i) ==>
              name in Registered(drivers, ds) && Registered(drivers, ds)[name] == ds[i]
    ensures name in drivers && !(exists i :: LastNamed(ds, name, i)) ==> Registered(drivers, ds)[name] == drivers[name]
  {
    if ds != [] {
      var init, last := ds[..|ds| - 1], ds[|ds| - 1];
      RegisteredByName(drivers, init, name);
      if last.name == name {
        assert LastNamed(ds, name, |ds| - 1);
      } else {
        assert forall i :: LastNamed(ds, name, i) <==> LastNamed(init, name, i);
      }
    }
  }

  /** What a refresh does to a worker object that was there before. */
  function AfterRefresh(w: WorkerObject, r: nat, workers: map<WorkerId, nat>, wanted: Wanted): WorkerObject {
    w.(cancelled := w.cancelled || (w.id in workers && workers[w.id] == r && w.id !in wanted))
  }

  lemma OldObjectsAfterRefresh(s0: State, wanted: Wanted, s: State, r: nat, w0: WorkerObject, w: WorkerObject)
    requires Refreshed(s0, wanted, s) && r < |s0.routines| && Mirror(w0, s0.routines[r]) && Mirror(w, s.routines[r])
    ensures w == AfterRefresh(w0, r, s0.workers, wanted)
  {
  }

  lemma KeysInRange(c: Config, labels: seq<Label>)
    requires IsRun(c, Init(), labels)
    ensures var s := Exec(c, Init(), labels);
            && (forall id :: id in s.workers ==> s.workers[id] < |s.routines|)
            && (InStartWorker(s.pc) ==> s.pc.id in s.workers)
            && (s.pc.Cancelling? ==> s.pc.todo <= s.workers.Keys)
  {
    ReachableInv(c, labels);
  }

  class Scheduler {
    const retryInterval: int
    const maxRetries: int
    const collectorTimeout: int
    var drivers: map<string, Driver>
    var workers: map<WorkerId, nat>        // positions in `objects`
    var workersRunning: int
    var objects: seq<WorkerObject>         // every worker object allocated so far
    var stoppedWorker: seq<WorkerId>       // the channel
    var rootCancelled: bool                // the context that Run creates

    ghost var world: State                 // the whole system, other goroutines included
    ghost var taken: seq<Label>            // the steps taken since Run was called

    function Cfg(): Config
      reads this
    {
      Config(drivers, maxRetries)
    }

    /** The world is where the steps taken so far lead. */
    ghost predicate OnTrack()
      reads this
    {
      IsRun(Cfg(), Init(), taken) && world == Exec(Cfg(), Init(), taken)
    }

    /** The fields show the state `s`. */
    ghost predicate Reflects(s: State)
      reads this
    {
      && workers == s.workers
      && workersRunning == s.waitGroup
      && stoppedWorker == s.channel
      && rootCancelled == s.rootCancelled
      && |objects| == |s.routines|
      && (forall r :: 0 <= r < |objects| ==> Mirror(objects[r], s.routines[r]))
    }

    ghost predicate Valid()
      reads this
    {
      OnTrack() && Reflects(world)
    }

    /** NewScheduler; the settings of the workers may be left to their defaults. */
    constructor (collectorRetryIntervalMs: Option<int>, collectorMaxRetries: Option<int>,
                 collectorTimeoutMs: Option<int>)
      ensures Valid() && drivers == map[] && taken == [] && world == Init()
      ensures retryInterval == OrDefault(collectorRetryIntervalMs, 1000)
      ensures maxRetries == OrDefault(collectorMaxRetries, 3)
      ensures collectorTimeout == OrDefault(collectorTimeoutMs, 15_000)
    {
      retryInterval := OrDefault(collectorRetryIntervalMs, DEFAULT_RETRY_INTERVAL);
      maxRetries := OrDefault(collectorMaxRetries, DEFAULT_MAX_RETRIES);
      collectorTimeout := OrDefault(collectorTimeoutMs, DEFAULT_COLLECTOR_TIMEOUT);
      drivers, workers, workersRunning, objects := map[], map[], 0, [];
      stoppedWorker, rootCancelled := [], false;
      world, taken := Init(), [];
    }

    /** Registers drivers, before Run. */
    method WithDriver(ds: seq<Driver>)
      requires Valid() && taken == []
      modifies this`drivers
      ensures Valid() && drivers == Registered(old(drivers), ds)
    {
      for i := 0 to |ds|
        invariant drivers == Registered(old(drivers), ds[..i])
      {
        assert ds[..i + 1][..i] == ds[..i];
        drivers := drivers[ds[i].name := ds[i]];
      }
      assert ds[..|ds|] == ds;
    }

    /** Records one step of the main loop, whose effect on the fields has just been carried out. */
    ghost method Take(l: Label)
      requires OnTrack() && Enabled(Cfg(), world, l) && Reflects(Apply(Cfg(), world, l))
      modifies this`world, this`taken
      ensures Valid() && world == Apply(Cfg(), old(world), l) && taken == old(taken) + [l]
    {
      RunOne(Cfg(), world, l);
      RunConcat(Cfg(), Init(), taken, [l]);
      world := Apply(Cfg(), world, l);
      taken := taken + [l];
    }

    /**
      A point at which other goroutines may run. Its body does nothing; callers are verified against
      its contract alone, which allows any number of steps of any of them.
     */
    method OthersRun() returns (ghost others: seq<Label>)
      requires Valid()
      modifies this`stoppedWorker, this`rootCancelled, this`world, this`taken
      ensures AllOthers(others) && IsRun(Cfg(), old(world), others)
      ensures world == Exec(Cfg(), old(world), others) && taken == old(taken) + others
      ensures stoppedWorker == world.channel && rootCancelled == world.rootCancelled
    {
      others := [];
    }

    /** Records one step of the main loop and lets other goroutines run after it. */
    method Step(ghost l: Label) returns (ghost steps: seq<Label>)
      requires OnTrack() && Enabled(Cfg(), world, l) && Reflects(Apply(Cfg(), world, l)) && !l.EndRefresh?
      modifies this`stoppedWorker, this`rootCancelled, this`world, this`taken
      ensures Valid() && MainUntouched(Apply(Cfg(), old(world), l), world)
      ensures taken == old(taken) + steps && EndRefresh !in steps
    {
      Take(l);
      steps := Yield();
      steps := [l] + steps;
    }

    method Yield() returns (ghost others: seq<Label>)
      requires Valid()
      modifies this`stoppedWorker, this`rootCancelled, this`world, this`taken
      ensures Valid() && MainUntouched(old(world), world)
      ensures taken == old(taken) + others && EndRefresh !in others
    {
      ghost var c, s, before := Cfg(), world, taken;
      others := OthersRun();
      RunConcat(c, Init(), before, others);
      OthersLeaveMainAlone(c, s, others);
    }

    // ---- startWorker ----

    method InsertWorker(id: WorkerId, info: InstanceInfo) returns (ghost steps: seq<Label>)
      requires Valid() && world.pc.Starting? && id in world.pc.todo && id !in workers
      requires id in world.pc.desired && world.pc.desired[id] == info
      modifies this`workers, this`objects, this`stoppedWorker, this`rootCancelled, this`world, this`taken
      ensures Valid() && world.pc == Inserted(old(world.pc).desired, old(world.pc).todo - {id}, id)
      ensures taken == old(taken) + steps && EndRefresh !in steps
      ensures workers == old(workers)[id := |old(objects)|]
      ensures objects == old(objects) + [WorkerObject(id, info, Lookup(Cfg(), id.driver), false)]
    {
      var driver := if id.driver in drivers then Some(drivers[id.driver]) else None;
      objects := objects + [WorkerObject(id, info, driver, false)];
      workers := workers[id := |objects| - 1];
      steps := Step(VisitDesired(id));
    }

    method AddOne() returns (ghost steps: seq<Label>)
      requires Valid() && world.pc.Inserted?
      modifies this`workersRunning, this`stoppedWorker, this`rootCancelled, this`world, this`taken
      ensures Valid() && world.pc == Added(old(world.pc).desired, old(world.pc).todo, old(world.pc).id)
      ensures taken == old(taken) + steps && EndRefresh !in steps
      ensures workersRunning == old(workersRunning) + 1
    {
      workersRunning := workersRunning + 1;
      steps := Step(Add);
    }

    method SpawnWorker() returns (ghost steps: seq<Label>)
      requires Valid() && world.pc.Added?
      modifies this`stoppedWorker, this`rootCancelled, this`world, this`taken
      ensures Valid() && world.pc == Starting(old(world.pc).desired, old(world.pc).todo)
      ensures taken == old(taken) + steps && EndRefresh !in steps
    {
      KeysInRange(Cfg(), taken);
      steps := Step(Go);
    }

    method StartWorker(id: WorkerId, info: InstanceInfo) returns (ghost steps: seq<Label>)
      requires Valid() && world.pc.Starting? && id in world.pc.todo && id !in workers
      requires id in world.pc.desired && world.pc.desired[id] == info
      modifies this`workers, this`workersRunning, this`objects
      modifies this`stoppedWorker, this`rootCancelled, this`world, this`taken
      ensures Valid() && world.pc == Starting(old(world.pc).desired, old(world.pc).todo - {id})
      ensures taken == old(taken) + steps && EndRefresh !in steps
      ensures workers == old(workers)[id := |old(objects)|]
      ensures objects == old(objects) + [WorkerObject(id, info, Lookup(Cfg(), id.driver), false)]
      ensures workersRunning == old(workersRunning) + 1
    {
      ghost var a := InsertWorker(id, info);
      ghost var b := AddOne();
      ghost var d := SpawnWorker();
      steps := a + b + d;
    }

    // ---- deleteWorker ----

    method MarkDone()
      requires Valid() && world.pc.Received?
      modifies this`workersRunning, this`stoppedWorker, this`rootCancelled, this`world, this`taken
      ensures Valid() && world.pc == Counted(old(world.pc).id, old(world.pc).draining)
      ensures workersRunning == old(workersRunning) - 1 && workersRunning >= 0
      ensures world.logTimerArmed == old(world.logTimerArmed)
      ensures Listings(world.trace) == old(Listings(world.trace))
      ensures old(rootCancelled) ==> rootCancelled
    {
      WaitGroupCountsKeys(Cfg(), taken);
      workersRunning := workersRunning - 1;
      StepLists(Cfg(), world, Done);
      ghost var steps := Step(Done);
    }

    method DeleteWorker(id: WorkerId)
      requires Valid() && world.pc.Received? && world.pc.id == id
      modifies this`workers, this`workersRunning
      modifies this`stoppedWorker, this`rootCancelled, this`world, this`taken
      ensures Valid() && world.pc == if old(world.pc).draining then Draining else AtSelect
      ensures id in old(workers) && workers == old(workers) - {id}
      ensures workersRunning == old(workersRunning) - 1 && workersRunning >= 0
      ensures world.logTimerArmed == old(world.logTimerArmed)
      ensures Listings(world.trace) == old(Listings(world.trace))
      ensures old(rootCancelled) ==> rootCancelled
    {
      MarkDone();
      WaitGroupCountsKeys(Cfg(), taken);
      workers := workers - {id};
      StepLists(Cfg(), world, Delete);
      ghost var steps := Step(Delete);
    }

    // ---- the refresh ----

    /** Adds the workers that one instance calls for. The iteration over the drivers may take any order. */
    method AddDesired(desired: Wanted, info: InstanceInfo) returns (more: Wanted)
      ensures more == desired + ForInstance(drivers, info)
    {
      more := desired;
      var names := drivers.Keys;
      AllDrivers(drivers, info);
      assert drivers.Keys - names == {};
      while names != {}
        invariant names <= drivers.Keys
        invariant more == desired + ForDrivers(drivers, drivers.Keys - names, info)
        decreases |names|
      {
        var d :| d in names;
        var supported := SliceContainsString(drivers[d].supportedTypes, info.kind);
        OneMoreDriver(drivers, desired, drivers.Keys - names, d, info);
        assert drivers.Keys - (names - {d}) == (drivers.Keys - names) + {d};
        if supported {
          more := more[WorkerId(d, info.guid) := info];
        }
        names := names - {d};
      }
      assert drivers.Keys - names == drivers.Keys;
    }

    method DesiredWorkerIDs(infos: seq<InstanceInfo>) returns (desired: map<WorkerId, InstanceInfo>)
      ensures desired == DesiredWorkers(drivers, infos)
    {
      desired := map[];
      for i := 0 to |infos|
        invariant desired == DesiredWorkers(drivers, infos[..i])
      {
        desired := AddDesired(desired, infos[i]);
        assert infos[..i + 1][..i] == infos[..i];
      }
      assert infos[..|infos|] == infos;
    }

    method StartMissing(desired: map<WorkerId, InstanceInfo>) returns (ghost steps: seq<Label>)
      requires Valid() && world.pc == Starting(desired, desired.Keys)
      modifies this`workers, this`workersRunning, this`objects
      modifies this`stoppedWorker, this`rootCancelled, this`world, this`taken
      ensures Valid() && world.pc == Starting(desired, {})
      ensures taken == old(taken) + steps && EndRefresh !in steps
    {
      steps := [];
      var todo := desired.Keys;
      while todo != {}
        invariant Valid() && todo <= desired.Keys && world.pc == Starting(desired, todo)
        invariant taken == old(taken) + steps && EndRefresh !in steps
        decreases |todo|
      {
        var id :| id in todo;
        ghost var more;
        if id !in workers {
          more := StartWorker(id, desired[id]);
        } else {
          more := Step(VisitDesired(id));
        }
        steps := steps + more;
        todo := todo - {id};
      }
    }

    method VisitOne(id: WorkerId, wanted: bool) returns (ghost steps: seq<Label>)
      requires Valid() && world.pc.Cancelling? && id in world.pc.todo
      requires wanted <==> id in world.pc.desired
      modifies this`objects, this`stoppedWorker, this`rootCancelled, this`world, this`taken
      ensures Valid() && world.pc == Cancelling(old(world.pc).desired, old(world.pc).todo - {id})
      ensures taken == old(taken) + steps && EndRefresh !in steps
    {
      KeysInRange(Cfg(), taken);
      if !wanted {
        objects := objects[workers[id] := objects[workers[id]].(cancelled := true)];
      }
      steps := Step(VisitWorker(id));
    }

    method CancelUnwanted(desired: map<WorkerId, InstanceInfo>) returns (ghost steps: seq<Label>)
      requires Valid() && world.pc == Cancelling(desired, workers.Keys)
      modifies this`objects, this`stoppedWorker, this`rootCancelled, this`world, this`taken
      ensures Valid() && world.pc == Cancelling(desired, {})
      ensures taken == old(taken) + steps && EndRefresh !in steps
    {
      steps := [];
      var todo := workers.Keys;
      while todo != {}
        invariant Valid() && todo <= workers.Keys && world.pc == Cancelling(desired, todo)
        invariant taken == old(taken) + steps && EndRefresh !in steps
        decreases |todo|
      {
        var id :| id in todo;
        ghost var more := VisitOne(id, id in desired);
        steps := steps + more;
        todo := todo - {id};
      }
    }

    /** The second half of a refresh: the loop over the workers. */
    method FinishRefresh(desired: map<WorkerId, InstanceInfo>) returns (ghost steps: seq<Label>)
      requires Valid() && world.pc == Starting(desired, {})
      modifies this`objects, this`stoppedWorker, this`rootCancelled, this`world, this`taken
      ensures Valid() && world.pc.AtSelect?
      ensures taken == old(taken) + (steps + [EndRefresh]) && EndRefresh !in steps
    {
      ghost var a := Step(EndStarts);
      ghost var b := CancelUnwanted(desired);
      Take(EndRefresh);
      steps := a + b;
    }

    /** The steps of a whole refresh. */
    method RefreshSteps(infos: seq<InstanceInfo>) returns (ghost mid: seq<Label>)
      requires Valid() && world.pc.AtSelect?
      modifies this`workers, this`workersRunning, this`objects
      modifies this`stoppedWorker, this`rootCancelled, this`world, this`taken
      ensures Valid() && world.pc.AtSelect?
      ensures taken == old(taken) + RefreshLabels(infos, mid) && EndRefresh !in mid
    {
      Take(Listed(infos));
      ghost var others := Yield();
      var desired := DesiredWorkerIDs(infos);
      ghost var a := StartMissing(desired);
      ghost var b := FinishRefresh(desired);
      mid := others + a + b;
    }

    /**
      The timer arm after a successful listing. The keys become the old keys and the wanted ones;
      exactly the wanted keys that were missing are started; exactly the workers of the old keys that
      are not wanted are cancelled; every other worker object is as it was.
     */
    method RefreshInstances(infos: seq<InstanceInfo>)
      requires Valid() && world.pc.AtSelect?
      modifies this`workers, this`workersRunning, this`objects
      modifies this`stoppedWorker, this`rootCancelled, this`world, this`taken
      ensures Valid() && world.pc.AtSelect?
      ensures Refreshed(old(world), DesiredWorkers(drivers, infos), world)
      ensures workers.Keys == old(workers.Keys) + DesiredWorkers(drivers, infos).Keys
      ensures workersRunning == |workers|
      ensures |old(objects)| <= |objects|
      ensures forall r :: 0 <= r < |old(objects)| ==>
                objects[r] == AfterRefresh(old(objects)[r], r, old(workers), DesiredWorkers(drivers, infos))
      ensures Listings(world.trace) == old(Listings(world.trace)) + [infos]
      ensures old(stoppedWorker) <= stoppedWorker && (old(rootCancelled) ==> rootCancelled)
    {
      ghost var c, s0, before := Cfg(), world, taken;
      ghost var wanted := DesiredWorkers(drivers, infos);
      ghost var mid := RefreshSteps(infos);
      ReachableInv(c, before);
      RunConcat(c, Init(), before, RefreshLabels(infos, mid));
      RefreshRefinesSets(c, s0, infos, mid);
      RefreshListsOnce(c, s0, infos, mid);
      WaitGroupCountsKeys(c, taken);
      forall r | 0 <= r < |old(objects)|
        ensures objects[r] == AfterRefresh(old(objects)[r], r, old(workers), wanted)
      {
        OldObjectsAfterRefresh(s0, wanted, world, r, old(objects)[r], objects[r]);
      }
    }

    // ---- the main loop, its deferred drain, and Run ----

    /** The report at the head of the channel is that of worker `r`, which its key refers to. */
    ghost predicate Waiting(r: nat)
      reads this
    {
      r < |objects| && stoppedWorker != [] && stoppedWorker[0] in workers && workers[stoppedWorker[0]] == r
    }

    /** No key refers to worker `r` any more. */
    ghost predicate Gone(r: nat)
      reads this
    {
      r < |objects| && forall id :: id in workers ==> workers[id] != r
    }

    method ReceiveStopped()
      requires Valid() && stoppedWorker != []
      requires world.pc.AtSelect? || (world.pc.Draining? && workers != map[])
      modifies this`workers, this`workersRunning
      modifies this`stoppedWorker, this`rootCancelled, this`world, this`taken
      ensures Valid() && world.pc == old(world.pc)
      ensures old(stoppedWorker[0]) in old(workers) && workers == old(workers) - {old(stoppedWorker[0])}
      ensures world.logTimerArmed == old(world.logTimerArmed)
      ensures Listings(world.trace) == old(Listings(world.trace))
      ensures old(rootCancelled) ==> rootCancelled
    {
      var id := stoppedWorker[0];
      stoppedWorker := stoppedWorker[1..];
      StepLists(Cfg(), world, Receive);
      ghost var steps := Step(Receive);
      DeleteWorker(id);
    }

    /** The timer arm with a listing, as far as the select loop is concerned. */
    method OnListing(infos: seq<InstanceInfo>)
      requires Valid() && world.pc.AtSelect?
      modifies this`workers, this`workersRunning, this`objects
      modifies this`stoppedWorker, this`rootCancelled, this`world, this`taken
      ensures Valid() && world.pc.AtSelect?
      ensures Refreshed(old(world), DesiredWorkers(drivers, infos), world)
      ensures Listings(world.trace) == old(Listings(world.trace)) + [infos]
      ensures old(rootCancelled) ==> rootCancelled
      ensures forall r: nat :: old(Waiting(r)) ==> Waiting(r)
      ensures forall r: nat :: old(Gone(r)) ==> Gone(r)
    {
      RefreshInstances(infos);
    }

    /** The arm of the stopped workers: a report that is there is received. */
    method OnStopped()
      requires Valid() && world.pc.AtSelect?
      modifies this`workers, this`workersRunning
      modifies this`stoppedWorker, this`rootCancelled, this`world, this`taken
      ensures Valid() && world.pc.AtSelect?
      ensures workers == if old(stoppedWorker) == [] then old(workers) else old(workers) - {old(stoppedWorker)[0]}
      ensures Listings(world.trace) == old(Listings(world.trace)) && (old(rootCancelled) ==> rootCancelled)
      ensures forall r: nat :: old(Waiting(r)) || old(Gone(r)) ==> Gone(r)
    {
      ReachableInv(Cfg(), taken);
      if stoppedWorker != [] {
        ReceiveStopped();
      }
    }

    /** The arm is one that leaves the loop. */
    predicate Leaves(arm: Arm)
      reads this
    {
      arm.SignalArm? || (arm.DoneArm? && rootCancelled)
    }

    /** One select. An arm that is not ready is not taken. */
    method SelectOnce(arm: Arm) returns (left: bool)
      requires Valid() && world.pc.AtSelect?
      modifies this`workers, this`workersRunning, this`objects
      modifies this`stoppedWorker, this`rootCancelled, this`world, this`taken
      ensures Valid() && if left then world.pc.Draining? && rootCancelled && world.logTimerArmed else world.pc.AtSelect?
      ensures left <==> old(Leaves(arm))
      ensures Listings(world.trace) == old(Listings(world.trace)) + ListingOf(arm)
      ensures arm.TimerArm? && arm.listing.Some? ==>
                Refreshed(old(world), DesiredWorkers(drivers, arm.listing.value), world)
      ensures arm.StoppedArm? && old(stoppedWorker) != [] ==> workers == old(workers) - {old(stoppedWorker)[0]}
      ensures forall r: nat :: old(Waiting(r)) ==> if arm.StoppedArm? then Gone(r) else Waiting(r)
      ensures forall r: nat :: old(Gone(r)) ==> Gone(r)
      ensures old(rootCancelled) ==> rootCancelled
    {
      left := false;
      match arm
      case TimerArm(None) => Take(ListFailed);
      case TimerArm(Some(infos)) => OnListing(infos);
      case StoppedArm => OnStopped();
      case SignalArm => left := LeaveLoop(true);
      case DoneArm =>
        if rootCancelled {
          left := LeaveLoop(false);
        }
    }

    /** Leaves the loop: on a signal the root context is cancelled, otherwise it is already. */
    method LeaveLoop(signalled: bool) returns (left: bool)
      requires Valid() && world.pc.AtSelect? && (signalled || rootCancelled)
      modifies this`rootCancelled, this`world, this`taken
      ensures Valid() && left && world.pc.Draining? && rootCancelled && world.logTimerArmed
      ensures Listings(world.trace) == old(Listings(world.trace))
    {
      ReachableInv(Cfg(), taken);
      rootCancelled := true;
      Take(if signalled then Signal else SeeCancel);
      left := true;
    }

    /** A select, before which others may run. */
    method SelectNext(arm: Arm) returns (left: bool)
      requires Valid() && world.pc.AtSelect?
      modifies this`workers, this`workersRunning, this`objects
      modifies this`stoppedWorker, this`rootCancelled, this`world, this`taken
      ensures Valid() && if left then world.pc.Draining? && rootCancelled && world.logTimerArmed else world.pc.AtSelect?
      ensures if left then arm.SignalArm? || arm.DoneArm? else !arm.SignalArm? && !old(Leaves(arm))
      ensures Listings(world.trace) == old(Listings(world.trace)) + ListingOf(arm)
      ensures forall r: nat :: old(Waiting(r)) ==> Gone(r) || (Waiting(r) && !arm.StoppedArm?)
      ensures forall r: nat :: old(Gone(r)) ==> Gone(r)
      ensures old(rootCancelled) ==> rootCancelled
    {
      ghost var others := Yield();
      left := SelectOnce(arm);
    }

    /**
      The select loop, for any finite choice of arms, of which it goes through the first `k`. What it
      lists are exactly the listings of the timer arms among these. It is left only for the drain, and
      only with the root context cancelled: by a signal, always, and by a done arm if the context is
      done. A report that was there is received by the first arm for it.
     */
    method SelectLoop(arms: seq<Arm>) returns (left: bool, ghost k: nat)
      requires Valid() && world.pc.AtSelect?
      modifies this`workers, this`workersRunning, this`objects
      modifies this`stoppedWorker, this`rootCancelled, this`world, this`taken
      ensures Valid() && if left then world.pc.Draining? && rootCancelled && world.logTimerArmed else world.pc.AtSelect?
      ensures k <= |arms| && if left then k > 0 && (arms[k - 1].SignalArm? || arms[k - 1].DoneArm?) else k == |arms|
      ensures Listings(world.trace) == old(Listings(world.trace)) + ArmListings(arms[..k])
      ensures SignalArm in arms[..k] ==> left
      ensures old(rootCancelled) && DoneArm in arms[..k] ==> left
      ensures StoppedArm in arms[..k] ==> forall r: nat :: old(Waiting(r)) ==> Gone(r)
    {
      left, k := false, 0;
      for i := 0 to |arms|
        invariant Valid() && world.pc.AtSelect? && k == i
        invariant Listings(world.trace) == old(Listings(world.trace)) + ArmListings(arms[..i])
        invariant SignalArm !in arms[..i]
        invariant old(rootCancelled) ==> rootCancelled && DoneArm !in arms[..i]
        invariant forall r: nat :: old(Waiting(r)) ==> Gone(r) || (Waiting(r) && StoppedArm !in arms[..i])
      {
        ArmsSnoc(arms, i);
        left := SelectNext(arms[i]);
        k := i + 1;
        if left {
          return;
        }
      }
    }

    /** One select of the drain. */
    method DrainOnce(arm: DrainArm, timerArmed: bool) returns (stillArmed: bool)
      requires Valid() && world.pc.Draining? && world.logTimerArmed == timerArmed && workers != map[]
      modifies this`workers, this`workersRunning
      modifies this`stoppedWorker, this`rootCancelled, this`world, this`taken
      ensures Valid() && world.pc.Draining? && world.logTimerArmed == stillArmed
      ensures stillArmed <==> timerArmed && arm.DrainStopped?
      ensures Listings(world.trace) == old(Listings(world.trace))
      ensures if arm.DrainStopped? && old(stoppedWorker) != [] then workers == old(workers) - {old(stoppedWorker)[0]}
              else workers == old(workers) && stoppedWorker == old(stoppedWorker)
    {
      stillArmed := timerArmed;
      match arm
      case DrainStopped =>
        if stoppedWorker != [] {
          ReceiveStopped();
        }
      case DrainTimeout =>
        if timerArmed {
          stillArmed := false;
          Take(LogTimeout);
        }
    }

    /**
      The deferred drain, for any finite choice of arms, of which it goes through the first `k`. It ends
      exactly when no worker is left. A report that was there is received by the first arm for it.
     */
    method DrainLoop(arms: seq<DrainArm>) returns (done: bool, ghost k: nat)
      requires Valid() && world.pc.Draining? && world.logTimerArmed
      modifies this`workers, this`workersRunning
      modifies this`stoppedWorker, this`rootCancelled, this`world, this`taken
      ensures Valid() && done == (workers == map[])
      ensures if done then world.pc.Returned? else world.pc.Draining?
      ensures k <= |arms| && (k < |arms| ==> done)
      ensures Listings(world.trace) == old(Listings(world.trace))
      ensures workers.Keys <= old(workers.Keys)
      ensures old(stoppedWorker) != [] && DrainStopped in arms[..k] ==> old(stoppedWorker)[0] !in workers
    {
      var timerArmed := true;
      k := 0;
      for i := 0 to |arms|
        invariant Valid() && world.pc.Draining? && world.logTimerArmed == timerArmed && k == i
        invariant Listings(world.trace) == old(Listings(world.trace))
        invariant workers.Keys <= old(workers.Keys)
        invariant old(stoppedWorker) != [] ==>
                    if DrainStopped in arms[..i] then old(stoppedWorker)[0] !in workers
                    else stoppedWorker != [] && stoppedWorker[0] == old(stoppedWorker)[0]
      {
        if |workers| == 0 {
          break;
        }
        assert arms[..i + 1] == arms[..i] + [arms[i]];
        ghost var others := Yield();
        timerArmed := DrainOnce(arms[i], timerArmed);
        k := i + 1;
      }
      done := |workers| == 0;
      if done {
        Take(Return);
      }
    }

    /**
      Run, which goes through the first `k` of its arms. What it lists are exactly the listings of the
      timer arms among these. If it returns then, whatever the other goroutines did, no worker is left,
      the channel is empty and the counter zero; every collector that was created has been closed
      exactly once and not used afterwards; and no goroutine can do anything more.
     */
    method Run(arms: seq<Arm>, drainArms: seq<DrainArm>) returns (returned: bool, ghost k: nat)
      requires Valid() && world.pc.AtSelect?
      modifies this`workers, this`workersRunning, this`objects
      modifies this`stoppedWorker, this`rootCancelled, this`world, this`taken
      ensures Valid()
      ensures returned ==> workers == map[] && stoppedWorker == [] && workersRunning == 0 && rootCancelled
      ensures returned ==> AllExited(world) && forall l :: !Enabled(Cfg(), world, l)
      ensures returned ==>
                forall r :: 0 <= r < |objects| ==> CleanLog(objects[r].id.instanceGuid, LogOf(world.trace, r))
      ensures k <= |arms| && Listings(world.trace) == old(Listings(world.trace)) + ArmListings(arms[..k])
      ensures k < |arms| || SignalArm in arms[..k] || (old(rootCancelled) && DoneArm in arms[..k]) ==>
                !world.pc.AtSelect?
    {
      returned, k := SelectLoop(arms);
      if returned {
        ghost var m;
        returned, m := DrainLoop(drainArms);
        if returned {
          QuiescentWhenRunReturns(Cfg(), taken);
        }
      }
    }
  }
}
