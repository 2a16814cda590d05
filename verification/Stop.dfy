/**
  What Stop promises its caller. Stop cancels the root context and waits for the WaitGroup to reach
  zero. That does not by itself mean that the workers are gone for good: a main loop that has not
  seen the cancellation yet may take its refresh timer once more and start new workers.
 */
module Stop {
  import opened Types
  import opened Desired
  import opened Protocol
  import opened Invariant
  import opened Guarantees

  /** Stop can return: the root context is cancelled and Wait does not block. */
  predicate StopReturns(s: State) {
    s.rootCancelled && s.waitGroup == 0
  }

  ghost predicate GoroutineRunning(s: State) {
    exists r :: 0 <= r < |s.routines| && !s.routines[r].phase.Unstarted? && !s.routines[r].phase.Exited?
  }

  /** No worker goroutine runs now or in any continuation. */
  ghost predicate IdleForGood(c: Config, s: State) {
    forall labels :: IsRun(c, s, labels) ==> !GoroutineRunning(Exec(c, s, labels))
  }

  ghost predicate SomeDriverUsable(c: Config) {
    exists d, kind :: Supports(c.drivers, d, kind)
  }

  // ---- a drain with a zero WaitGroup stays idle ----

  lemma {:induction false} DrainStaysIdle(c: Config, s: State, labels: seq<Label>)
    requires InDrain(s.pc) && AllExited(s) && IsRun(c, s, labels)
    ensures AllExited(Exec(c, s, labels))
    decreases |labels|
  {
    if labels != [] {
      DrainStaysIdle(c, Apply(c, s, labels[0]), labels[1..]);
    }
  }

  lemma KeysWhenCountIsZero(c: Config, s: State)
    requires Inv(c, s) && s.waitGroup == 0
    ensures if s.pc.Inserted? || s.pc.Counted? then s.workers.Keys == {s.pc.id} else s.workers == map[]
    ensures !s.pc.Received? && !s.pc.Added?
  {
    if Deleting(s.pc) || InStartWorker(s.pc) {
      MapSizes(s.workers, s.pc.id, 0);
      assert s.workers.Keys - {s.pc.id} == (s.workers - {s.pc.id}).Keys;
      assert |s.workers.Keys| == |s.workers|;
    }
  }

  lemma ZeroCountInDrainIsIdle(c: Config, s: State)
    requires Inv(c, s) && InDrain(s.pc) && s.waitGroup == 0
    ensures AllExited(s)
  {
    KeysWhenCountIsZero(c, s);
  }

  // ---- anywhere else a worker can still be started ----

  /** A main loop that can go on to start a worker with nobody else moving. */
  ghost predicate CanStartAlone(s: State) {
    && StartOk(s) && TodoOk(s) && !InDrain(s.pc)
    && (|| InStartWorker(s.pc)
        || (s.pc.Counted? && s.workers.Keys == {s.pc.id})
        || (s.workers == map[] && !Deleting(s.pc)))
  }

  function StepsToGo(pc: Pc): nat {
    match pc
    case Counted(_, _) => 6
    case Starting(_, todo) => if todo == {} then 6 else 3
    case Cancelling(_, _) => 5
    case AtSelect => 4
    case Inserted(_, _, _) => 2
    case Added(_, _, _) => 1
    case _ => 0
  }

  /** A refresh that lists one instance of a supported type leaves something to start. */
  lemma ListingLeavesWork(c: Config, s: State, d: string, kind: string)
    requires CanStartAlone(s) && Supports(c.drivers, d, kind) && s.pc.AtSelect?
    ensures Apply(c, s, Listed([InstanceInfo("", kind)])).pc.todo != {}
  {
    var infos := [InstanceInfo("", kind)];
    DesiredIsLastWanting(c.drivers, infos, WorkerId(d, ""));
    assert Wants(c.drivers, infos[0], WorkerId(d, ""));
    assert WorkerId(d, "") in Apply(c, s, Listed(infos)).pc.todo;
  }

  ghost function NextMove(s: State, kind: string): Label {
    match s.pc
    case Counted(_, _) => Delete
    case Starting(_, todo) => if todo == {} then EndStarts else var id :| id in todo; VisitDesired(id)
    case Cancelling(_, _) => EndRefresh
    case Inserted(_, _, _) => Add
    case _ => Listed([InstanceInfo("", kind)])
  }

  lemma OneStepCloser(c: Config, s: State, d: string, kind: string)
    requires CanStartAlone(s) && Supports(c.drivers, d, kind) && !s.pc.Added?
    ensures Enabled(c, s, NextMove(s, kind)) && CanStartAlone(Apply(c, s, NextMove(s, kind)))
    ensures StepsToGo(Apply(c, s, NextMove(s, kind)).pc) < StepsToGo(s.pc)
  {
    if s.pc.AtSelect? {
      ListingLeavesWork(c, s, d, kind);
    } else if s.pc.Counted? {
      assert (s.workers - {s.pc.id}).Keys == {};
    }
  }

  lemma {:induction false} CanStillStart(c: Config, s: State, d: string, kind: string) returns (labels: seq<Label>)
    requires CanStartAlone(s) && Supports(c.drivers, d, kind)
    ensures IsRun(c, s, labels) && GoroutineRunning(Exec(c, s, labels))
    decreases StepsToGo(s.pc)
  {
    if s.pc.Added? {
      labels := [Go];
      RunOne(c, s, Go);
      assert DoGo(s).routines[s.workers[s.pc.id]].phase.Creating?;
    } else {
      var l := NextMove(s, kind);
      OneStepCloser(c, s, d, kind);
      var rest := CanStillStart(c, Apply(c, s, l), d, kind);
      labels := [l] + rest;
      assert labels[1..] == rest;
    }
  }

  lemma NoUsableDriverNoWorker(c: Config, before: seq<Label>)
    requires IsRun(c, Init(), before) && !SomeDriverUsable(c)
    ensures !GoroutineRunning(Exec(c, Init(), before))
  {
    EverythingIsSourced(c, before);
    var s := Exec(c, Init(), before);
    assert forall r :: 0 <= r < |s.routines| ==> Supports(c.drivers, s.routines[r].id.driver, s.routines[r].info.kind);
  }

  /**
    When Stop returns, the workers are gone for good exactly if the main loop is already in its
    deferred drain (or no registered driver supports anything). In every other reachable state in
    which Stop can return, some continuation starts a worker again.
   */
  lemma StopMeansIdleIffDraining(c: Config, before: seq<Label>)
    requires IsRun(c, Init(), before) && StopReturns(Exec(c, Init(), before))
    ensures var s := Exec(c, Init(), before);
            IdleForGood(c, s) <==> InDrain(s.pc) || !SomeDriverUsable(c)
  {
    ReachableInv(c, before);
    var s := Exec(c, Init(), before);
    if InDrain(s.pc) {
      ZeroCountInDrainIsIdle(c, s);
      forall labels | IsRun(c, s, labels) ensures !GoroutineRunning(Exec(c, s, labels)) {
        DrainStaysIdle(c, s, labels);
      }
    } else if SomeDriverUsable(c) {
      var d, kind :| Supports(c.drivers, d, kind);
      KeysWhenCountIsZero(c, s);
      var labels := CanStillStart(c, s, d, kind);
      assert !IdleForGood(c, s);
    } else {
      forall labels | IsRun(c, s, labels) ensures !GoroutineRunning(Exec(c, s, labels)) {
        RunConcat(c, Init(), before, labels);
        NoUsableDriverNoWorker(c, before + labels);
      }
    }
  }

  /** The promise does fail: right after the start, Stop returns and a worker starts afterwards. */
  lemma StopCanReturnTooEarly()
    ensures var c := Config(map["cloudwatch" := Driver("cloudwatch", ["postgres", "mysql"], 300)], 3);
            IsRun(c, Init(), [StopCalled]) && StopReturns(Exec(c, Init(), [StopCalled])) &&
            !IdleForGood(c, Exec(c, Init(), [StopCalled]))
  {
    var c := Config(map["cloudwatch" := Driver("cloudwatch", ["postgres", "mysql"], 300)], 3);
    RunOne(c, Init(), StopCalled);
    assert Supports(c.drivers, "cloudwatch", "mysql");
    StopMeansIdleIffDraining(c, [StopCalled]);
  }
}
