/**
  The worker goroutine's code: create a collector, collect and back off, close, report. Its methods
  are shown to take exactly the protocol's steps of that worker, with arbitrary steps of the main
  loop and of the other workers in between, so everything proved of protocol runs holds of it.
 */
module WorkerProcess {
  import opened Types
  import opened WorkerLog
  import opened Protocol
  import opened Invariant
  import opened Backoff

  // ---- what the workers share ----

  /** An envelope that reached the emitter, and the position of the worker that emitted it. */
  datatype Post = Post(sender: nat, envelope: Envelope)

  /** What the emitter was given by all workers, in order. */
  function Sent(trace: seq<TraceEvent>): seq<Post> {
    if trace == [] then [] else
    Sent(trace[..|trace| - 1]) + SentIn(trace[|trace| - 1])
  }

  function SentIn(t: TraceEvent): seq<Post> {
    if t.Did? && t.event.Emitted? then [Post(t.r, t.event.envelope)] else []
  }

  /** The envelopes of worker `r`. */
  function Own(posts: seq<Post>, r: nat): seq<Envelope> {
    if posts == [] then [] else
    var last := posts[|posts| - 1];
    Own(posts[..|posts| - 1], r) + if last.sender == r then [last.envelope] else []
  }

  lemma OwnSnoc(posts: seq<Post>, post: Post, r: nat)
    ensures Own(posts + [post], r) == Own(posts, r) + if post.sender == r then [post.envelope] else []
  {
    assert (posts + [post])[..|posts|] == posts;
  }

  /** However the workers interleave at the emitter, the part of each is what its own log says. */
  lemma {:induction false} OwnIsLogged(trace: seq<TraceEvent>, r: nat)
    ensures Own(Sent(trace), r) == EmittedEnvelopes(LogOf(trace, r))
  {
    if trace != [] {
      var init, t := trace[..|trace| - 1], trace[|trace| - 1];
      OwnIsLogged(init, r);
      if t.Did? {
        LogSnoc(LogOf(init, r), t.event);
        if t.event.Emitted? {
          OwnSnoc(Sent(init), Post(t.r, t.event.envelope), r);
        }
      }
      assert Sent(init) + [] == Sent(init);
    }
  }

  /** Worker `r` has a goroutine, called `id`, that is in phase `p`. */
  ghost predicate Runs(s: State, r: nat, id: WorkerId, p: Phase) {
    r < |s.routines| && s.routines[r].id == id && s.routines[r].phase == p && !p.Unstarted?
  }

  predicate NotBy(l: Label, r: nat) {
    l.Work? ==> l.r != r
  }

  predicate NoneBy(labels: seq<Label>, r: nat) {
    forall i :: 0 <= i < |labels| ==> NotBy(labels[i], r)
  }

  lemma OtherStepKeepsWorker(c: Config, s: State, l: Label, r: nat, id: WorkerId, p: Phase)
    requires StartOk(s) && Runs(s, r, id, p) && Enabled(c, s, l) && NotBy(l, r)
    ensures Runs(Apply(c, s, l), r, id, p) && LogOf(Apply(c, s, l).trace, r) == LogOf(s.trace, r)
    ensures ContextDone(s, r) ==> ContextDone(Apply(c, s, l), r)
  {
    if l.Work? {
      LogOfSnoc(s.trace, Did(l.r, l.event), r);
    } else if l.Go? {
      LogOfSnoc(s.trace, Did(s.workers[s.pc.id], Started), r);
    } else if l.Listed? {
      LogOfSnoc(s.trace, Listing(l.infos), r);
    }
  }

  /** Nobody else moves a running worker or writes to its log. */
  lemma {:induction false} OthersKeepWorker(c: Config, s: State, labels: seq<Label>, r: nat, id: WorkerId, p: Phase)
    requires Inv(c, s) && Runs(s, r, id, p) && IsRun(c, s, labels) && NoneBy(labels, r)
    ensures Runs(Exec(c, s, labels), r, id, p) && LogOf(Exec(c, s, labels).trace, r) == LogOf(s.trace, r)
    ensures ContextDone(s, r) ==> ContextDone(Exec(c, s, labels), r)
    decreases |labels|
  {
    if labels != [] {
      assert NotBy(labels[0], r);
      OtherStepKeepsWorker(c, s, labels[0], r, id, p);
      StepKeepsInv(c, s, labels[0]);
      OthersKeepWorker(c, Apply(c, s, labels[0]), labels[1..], r, id, p);
    }
  }

  lemma OwnStep(c: Config, s: State, r: nat, e: Event)
    requires WorkEnabled(c, s, r, e)
    ensures var s' := DoWork(c, s, r, e);
            && Runs(s', r, s.routines[r].id, Advance(c, s.routines[r], e).value)
            && LogOf(s'.trace, r) == LogOf(s.trace, r) + [e]
            && Sent(s'.trace) == Sent(s.trace) + SentIn(Did(r, e))
            && s'.channel == s.channel + (if e.Reported? then [s.routines[r].id] else [])
            && |s'.routines| == |s.routines|
            && (forall q :: 0 <= q < |s.routines| ==> ContextDone(s', q) == ContextDone(s, q))
  {
    LogOfSnoc(s.trace, Did(r, e), r);
    assert (s.trace + [Did(r, e)])[..|s.trace|] == s.trace;
  }

  /** The emitter, the channel and the contexts, and the state of the whole system. */
  class Shared {
    ghost const cfg: Config
    var sent: seq<Post>
    var stopped: seq<WorkerId>   // the channel
    var done: seq<bool>          // by worker: its context is done

    ghost var world: State
    ghost var taken: seq<Label>  // the steps taken by all since the scheduler's Run was called

    constructor (ghost cfg: Config)
      ensures Valid() && this.cfg == cfg && taken == []
    {
      this.cfg := cfg;
      sent, stopped, done, world, taken := [], [], [], Init(), [];
    }

    /** The world is where the steps taken so far lead. */
    ghost predicate OnTrack()
      reads this
    {
      IsRun(cfg, Init(), taken) && world == Exec(cfg, Init(), taken)
    }

    ghost predicate Shows(s: State)
      reads this
    {
      && sent == Sent(s.trace)
      && stopped == s.channel
      && |done| == |s.routines|
      && (forall q :: 0 <= q < |done| ==> done[q] == ContextDone(s, q))
    }

    ghost predicate Valid()
      reads this
    {
      OnTrack() && Shows(world)
    }

    ghost predicate Cancelled(r: nat)
      reads this
    {
      r < |world.routines| && ContextDone(world, r)
    }

    /** The main loop and the other workers run for a while; all that worker `r` may rely on. */
    method OthersRun(ghost r: nat) returns (ghost others: seq<Label>)
      requires Valid()
      modifies this
      ensures Valid() && NoneBy(others, r) && IsRun(cfg, old(world), others)
      ensures world == Exec(cfg, old(world), others) && taken == old(taken) + others
    {
      others := [];
    }

    method Yield(ghost r: nat, ghost id: WorkerId, ghost p: Phase)
      requires Valid() && Runs(world, r, id, p)
      modifies this
      ensures Valid() && Runs(world, r, id, p) && LogOf(world.trace, r) == old(LogOf(world.trace, r))
      ensures old(Cancelled(r)) ==> Cancelled(r)
    {
      ReachableInv(cfg, taken);
      ghost var before := world;
      ghost var others := OthersRun(r);
      OthersKeepWorker(cfg, before, others, r, id, p);
    }

    /** Records one step of worker `r`, which the other fields show already. */
    ghost method Record(r: nat, e: Event)
      requires OnTrack() && WorkEnabled(cfg, world, r, e) && Shows(DoWork(cfg, world, r, e))
      modifies this`world, this`taken
      ensures Valid() && world == DoWork(cfg, old(world), r, e)
    {
      RunOne(cfg, world, Work(r, e));
      RunConcat(cfg, Init(), taken, [Work(r, e)]);
      world, taken := DoWork(cfg, world, r, e), taken + [Work(r, e)];
    }

    /** A step of worker `r` in its own part of the world, after which others may run. */
    method Step(ghost r: nat, ghost id: WorkerId, ghost e: Event)
      requires Valid() && WorkEnabled(cfg, world, r, e) && world.routines[r].id == id
      requires !e.Emitted? && !e.Reported?
      modifies this
      ensures Valid() && Runs(world, r, id, Advance(cfg, old(world.routines[r]), e).value)
      ensures LogOf(world.trace, r) == old(LogOf(world.trace, r)) + [e]
      ensures old(Cancelled(r)) ==> Cancelled(r)
    {
      OwnStep(cfg, world, r, e);
      assert sent + [] == sent && stopped + [] == stopped;
      Record(r, e);
      Yield(r, id, world.routines[r].phase);
    }

    method Emit(r: nat, env: Envelope, ghost id: WorkerId)
      requires Valid() && WorkEnabled(cfg, world, r, Emitted(env)) && world.routines[r].id == id
      modifies this
      ensures Valid() && Runs(world, r, id, Advance(cfg, old(world.routines[r]), Emitted(env)).value)
      ensures LogOf(world.trace, r) == old(LogOf(world.trace, r)) + [Emitted(env)]
      ensures old(Cancelled(r)) ==> Cancelled(r)
    {
      OwnStep(cfg, world, r, Emitted(env));
      sent := sent + [Post(r, env)];
      assert stopped + [] == stopped;
      Record(r, Emitted(env));
      Yield(r, id, world.routines[r].phase);
    }

    /** Sends on the channel, which must have room. */
    method Send(id: WorkerId, ghost r: nat)
      requires Valid() && WorkEnabled(cfg, world, r, Reported) && world.routines[r].id == id
      modifies this
      ensures Valid() && Runs(world, r, id, Exited)
      ensures LogOf(world.trace, r) == old(LogOf(world.trace, r)) + [Reported]
    {
      OwnStep(cfg, world, r, Reported);
      stopped := stopped + [id];
      assert sent + [] == sent;
      Record(r, Reported);
      Yield(r, id, Exited);
    }
  }

  // ---- the worker ----

  /** A collector. It may only be used while it is open. */
  class Collector {
    var open: bool

    constructor ()
      ensures open
    {
      open := true;
    }

    /** What a collection returns is up to the database; `result` stands for it. */
    method Collect(result: Option<seq<Metric>>) returns (r: Option<seq<Metric>>)
      requires open
      ensures r == result
    {
      r := result;
    }

    method Close()
      requires open
      modifies this
      ensures !open
    {
      open := false;
    }
  }

  lemma EnvelopesSnoc(before: seq<Envelope>, guid: string, metrics: seq<Metric>, i: nat)
    requires i < |metrics|
    ensures metrics[i..][0] == metrics[i] && metrics[i..][1..] == metrics[i + 1..]
    ensures before + Envelopes(guid, metrics[..i + 1]) ==
            before + Envelopes(guid, metrics[..i]) + [Envelope(guid, metrics[i])]
  {
  }

  lemma AfterFailure(guid: string, t: Timing, log: seq<Event>, n: nat)
    requires Replay(guid, t.maxRetries, log) == Some(Collecting(n))
    ensures Delays(t, Outcomes(log + [CollectFailed])) == Delays(t, Outcomes(log)) +
              if n + 1 <= t.maxRetries then [Pow4(n + 1) * t.retryIntervalMs * MILLISECOND] else []
  {
    ErrorCountIsFailingSuffix(guid, t.maxRetries, log);
    FailureWait(t, Outcomes(log), n);
    LogSnoc(log, CollectFailed);
  }

  lemma AfterSuccess(t: Timing, log: seq<Event>, metrics: seq<Metric>)
    ensures Delays(t, Outcomes(log + [Collected(metrics)])) ==
            Delays(t, Outcomes(log)) + [t.collectIntervalSeconds * SECOND]
  {
    SuccessWait(t, Outcomes(log));
    LogSnoc(log, Collected(metrics));
  }

  /** The arm a select of the worker would like; the timer arm comes with what the collection will return. */
  datatype Arm = TimerArm(result: Option<seq<Metric>>) | DoneArm

  function OutcomesOf(arm: Arm): seq<bool> {
    if arm.TimerArm? then [arm.result.Some?] else []
  }

  function MetricsOf(arm: Arm): seq<Metric> {
    if arm.TimerArm? && arm.result.Some? then arm.result.value else []
  }

  /** How the collections of some arms turn out, one for each time the timer fires. */
  function ArmOutcomes(arms: seq<Arm>): seq<bool> {
    if arms == [] then [] else ArmOutcomes(arms[..|arms| - 1]) + OutcomesOf(arms[|arms| - 1])
  }

  /** The metrics that the collections of some arms return, in order. */
  function ArmMetrics(arms: seq<Arm>): seq<Metric> {
    if arms == [] then [] else ArmMetrics(arms[..|arms| - 1]) + MetricsOf(arms[|arms| - 1])
  }

  lemma ArmsSnoc(before: seq<Envelope>, h: seq<bool>, guid: string, arms: seq<Arm>, i: nat)
    requires i < |arms|
    ensures |arms[..i + 1]| == i + 1 && arms[..i + 1][i] == arms[i]
    ensures DoneArm in arms[..i + 1] <==> DoneArm in arms[..i] || arms[i].DoneArm?
    ensures h + ArmOutcomes(arms[..i + 1]) == h + ArmOutcomes(arms[..i]) + OutcomesOf(arms[i])
    ensures before + Envelopes(guid, ArmMetrics(arms[..i + 1])) ==
            before + Envelopes(guid, ArmMetrics(arms[..i])) + Envelopes(guid, MetricsOf(arms[i]))
  {
    assert arms[..i + 1] == arms[..i] + [arms[i]];
    EnvelopesConcat(guid, ArmMetrics(arms[..i]), MetricsOf(arms[i]));
  }

  lemma EnvelopesConcat(guid: string, a: seq<Metric>, b: seq<Metric>)
    ensures Envelopes(guid, a + b) == Envelopes(guid, a) + Envelopes(guid, b)
  {
  }

  /** Why a loop that has gone through some arms was left by the last of them. */
  predicate LeftBy(arms: seq<Arm>, cancelled: bool) {
    arms != [] && if arms[|arms| - 1].DoneArm? then cancelled else arms[|arms| - 1].result.None?
  }

  class CollectorWorker {
    const id: WorkerId
    const position: nat        // of this worker, by order of starting
    const shared: Shared
    const timing: Timing
    var waits: seq<int>        // every duration given to timer.Reset, in nanoseconds

    constructor (id: WorkerId, position: nat, shared: Shared, timing: Timing)
      requires shared.Valid() && Runs(shared.world, position, id, Creating)
      requires shared.cfg.maxRetries == timing.maxRetries
      ensures this.id == id && this.position == position && this.shared == shared && this.timing == timing
      ensures At(Creating)
    {
      this.id, this.position, this.shared, this.timing, waits := id, position, shared, timing, [];
      new;
      Replays(Creating);
      ErrorCountIsFailingSuffix(id.instanceGuid, timing.maxRetries, Log());
    }

    ghost function Log(): seq<Event>
      reads this, shared
    {
      LogOf(shared.world.trace, position)
    }

    /** What the emitter got from this worker. */
    ghost function Emissions(): seq<Envelope>
      reads this, shared
    {
      Own(shared.sent, position)
    }

    ghost predicate Explained(p: Phase)
      reads this, shared
    {
      shared.Valid() && Runs(shared.world, position, id, p) && shared.cfg.maxRetries == timing.maxRetries
    }

    /** The worker is in phase `p` of the protocol, and has set its timer as the outcomes in its log call for. */
    ghost predicate At(p: Phase)
      reads this, shared
    {
      Explained(p) && waits == Delays(timing, Outcomes(Log()))
    }

    lemma Replays(p: Phase)
      requires Explained(p)
      ensures Replay(id.instanceGuid, timing.maxRetries, Log()) == Some(p)
      ensures Emissions() == EmittedEnvelopes(Log())
    {
      ReachableInv(shared.cfg, shared.taken);
      OwnIsLogged(shared.world.trace, position);
    }

    /** From outcomes `h` and emissions `before` on, the worker has gone through the given arms. */
    ghost predicate Through(before: seq<Envelope>, h: seq<bool>, arms: seq<Arm>)
      reads this, shared
    {
      && Outcomes(Log()) == h + ArmOutcomes(arms)
      && Emissions() == before + Envelopes(id.instanceGuid, ArmMetrics(arms))
    }

    /** Takes a step that neither emits nor reports. */
    method Move(ghost e: Event, ghost p: Phase)
      requires Explained(p) && WorkEnabled(shared.cfg, shared.world, position, e) && !e.Emitted? && !e.Reported?
      modifies shared
      ensures Explained(Next(id.instanceGuid, timing.maxRetries, p, e).value)
      ensures Log() == old(Log()) + [e] && Emissions() == old(Emissions())
      ensures old(shared.Cancelled(position)) ==> shared.Cancelled(position)
    {
      Replays(p);
      LogSnoc(Log(), e);
      shared.Step(position, id, e);
      Replays(Next(id.instanceGuid, timing.maxRetries, p, e).value);
    }

    /** Moreover the step does not decide a collection. */
    method Take(ghost e: Event, ghost p: Phase)
      requires At(p) && WorkEnabled(shared.cfg, shared.world, position, e)
      requires !e.Emitted? && !e.Reported? && !e.CollectFailed? && !e.Collected?
      modifies shared
      ensures At(Next(id.instanceGuid, timing.maxRetries, p, e).value)
      ensures Log() == old(Log()) + [e] && Emissions() == old(Emissions())
      ensures old(shared.Cancelled(position)) ==> shared.Cancelled(position)
    {
      LogSnoc(Log(), e);
      Move(e, p);
    }

    /** A failed collection: wait longer, or give up. */
    method BackOff(errorCount: nat) returns (newCount: nat, giveUp: bool)
      requires At(Collecting(errorCount))
      modifies `waits, shared
      ensures newCount == errorCount + 1
      ensures giveUp <==> newCount > timing.maxRetries
      ensures At(if giveUp then Closing else Looping(newCount))
      ensures Emissions() == old(Emissions()) && Outcomes(Log()) == old(Outcomes(Log())) + [false]
      ensures old(shared.Cancelled(position)) ==> shared.Cancelled(position)
    {
      Replays(Collecting(errorCount));
      AfterFailure(id.instanceGuid, timing, Log(), errorCount);
      LogSnoc(Log(), CollectFailed);
      Move(CollectFailed, Collecting(errorCount));
      newCount := errorCount + 1;
      giveUp := newCount > timing.maxRetries;
      if !giveUp {
        var waitTime := Pow4(newCount) * timing.retryIntervalMs;
        waits := waits + [waitTime * MILLISECOND];
      }
    }

    /** A successful collection: emit its metrics in order, then wait for the collect interval. */
    method EmitAll(metrics: seq<Metric>, errorCount: nat)
      requires At(Collecting(errorCount))
      modifies `waits, shared
      ensures At(Looping(0)) && Outcomes(Log()) == old(Outcomes(Log())) + [true]
      ensures Emissions() == old(Emissions()) + Envelopes(id.instanceGuid, metrics)
      ensures old(shared.Cancelled(position)) ==> shared.Cancelled(position)
    {
      Succeed(metrics, errorCount);
      EmitEach(metrics);
      waits := waits + [timing.collectIntervalSeconds * SECOND];
    }

    method Succeed(ghost metrics: seq<Metric>, ghost errorCount: nat)
      requires At(Collecting(errorCount))
      modifies shared
      ensures Explained(AfterEmit(metrics)) && Emissions() == old(Emissions())
      ensures Outcomes(Log()) == old(Outcomes(Log())) + [true]
      ensures Delays(timing, Outcomes(Log())) == waits + [timing.collectIntervalSeconds * SECOND]
      ensures old(shared.Cancelled(position)) ==> shared.Cancelled(position)
    {
      LogSnoc(Log(), Collected(metrics));
      AfterSuccess(timing, Log(), metrics);
      Move(Collected(metrics), Collecting(errorCount));
    }

    method EmitEach(metrics: seq<Metric>)
      requires Explained(AfterEmit(metrics))
      modifies shared
      ensures Explained(Looping(0)) && Outcomes(Log()) == old(Outcomes(Log()))
      ensures Emissions() == old(Emissions()) + Envelopes(id.instanceGuid, metrics)
      ensures old(shared.Cancelled(position)) ==> shared.Cancelled(position)
    {
      ghost var before, h := Emissions(), Outcomes(Log());
      assert metrics[0..] == metrics;
      for i := 0 to |metrics|
        invariant Explained(AfterEmit(metrics[i..])) && Outcomes(Log()) == h
        invariant Emissions() == before + Envelopes(id.instanceGuid, metrics[..i])
        invariant old(shared.Cancelled(position)) ==> shared.Cancelled(position)
      {
        EnvelopesSnoc(before, id.instanceGuid, metrics, i);
        EmitOne(metrics[i..]);
      }
      assert metrics[..|metrics|] == metrics;
    }

    method EmitOne(pending: seq<Metric>)
      requires pending != [] && Explained(Emitting(pending))
      modifies shared
      ensures Explained(AfterEmit(pending[1..])) && Outcomes(Log()) == old(Outcomes(Log()))
      ensures Emissions() == old(Emissions()) + [Envelope(id.instanceGuid, pending[0])]
      ensures old(shared.Cancelled(position)) ==> shared.Cancelled(position)
    {
      var env := Envelope(id.instanceGuid, pending[0]);
      Replays(Emitting(pending));
      LogSnoc(Log(), Emitted(env));
      shared.Emit(position, env, id);
      Replays(AfterEmit(pending[1..]));
    }

    method Fire(ghost errorCount: nat)
      requires At(Looping(errorCount))
      modifies shared
      ensures At(Collecting(errorCount))
      ensures Outcomes(Log()) == old(Outcomes(Log())) && Emissions() == old(Emissions())
      ensures old(shared.Cancelled(position)) ==> shared.Cancelled(position)
    {
      LogSnoc(Log(), TimerFired);
      Take(TimerFired, Looping(errorCount));
    }

    /** The timer arm: collect, then emit or back off. */
    method OnTimer(collector: Collector, result: Option<seq<Metric>>, errorCount: nat)
      returns (newCount: nat, stop: bool)
      requires At(Looping(errorCount)) && collector.open
      modifies `waits, shared
      ensures At(if stop then Closing else Looping(newCount))
      ensures stop <==> result.None? && errorCount + 1 > timing.maxRetries
      ensures Outcomes(Log()) == old(Outcomes(Log())) + [result.Some?]
      ensures result.None? ==> Emissions() == old(Emissions())
      ensures result.Some? ==> Emissions() == old(Emissions()) + Envelopes(id.instanceGuid, result.value)
      ensures old(shared.Cancelled(position)) ==> shared.Cancelled(position)
    {
      Fire(errorCount);
      var collected := collector.Collect(result);
      if collected.None? {
        newCount, stop := BackOff(errorCount);
      } else {
        EmitAll(collected.value, errorCount);
        newCount, stop := 0, false;
      }
    }

    /** The arm of the context, which can only be taken when the context is done; until then the select waits. */
    method OnDone(errorCount: nat) returns (stop: bool)
      requires At(Looping(errorCount))
      modifies `waits, shared
      ensures At(if stop then Closing else Looping(errorCount)) && (stop <==> old(shared.Cancelled(position)))
      ensures Outcomes(Log()) == old(Outcomes(Log())) && Emissions() == old(Emissions())
      ensures old(shared.Cancelled(position)) ==> shared.Cancelled(position)
    {
      stop := shared.done[position];
      LogSnoc(Log(), SawCancel);
      if stop {
        Take(SawCancel, Looping(errorCount));
      } else {
        Wait(Looping(errorCount));
      }
    }

    /** One iteration of the worker's select loop. */
    method Iterate(collector: Collector, arm: Arm, errorCount: nat) returns (newCount: nat, stop: bool)
      requires At(Looping(errorCount)) && collector.open
      modifies `waits, shared
      ensures At(if stop then Closing else Looping(newCount))
      ensures stop <==> if arm.DoneArm? then old(shared.Cancelled(position))
                        else arm.result.None? && errorCount + 1 > timing.maxRetries
      ensures Outcomes(Log()) == old(Outcomes(Log())) + OutcomesOf(arm)
      ensures Emissions() == old(Emissions()) + Envelopes(id.instanceGuid, MetricsOf(arm))
      ensures old(shared.Cancelled(position)) ==> shared.Cancelled(position)
    {
      match arm
      case DoneArm =>
        stop := OnDone(errorCount);
        newCount := errorCount;
      case TimerArm(result) =>
        newCount, stop := OnTimer(collector, result, errorCount);
        assert old(Emissions()) + [] == old(Emissions());
    }

    method Wait(ghost p: Phase)
      requires At(p)
      modifies shared
      ensures At(p) && Log() == old(Log()) && Emissions() == old(Emissions())
      ensures old(shared.Cancelled(position)) ==> shared.Cancelled(position)
    {
      Replays(p);
      shared.Yield(position, id, p);
      Replays(p);
    }

    method SendName()
      requires At(Sending) && shared.stopped == []
      modifies shared
      ensures At(Exited) && Emissions() == old(Emissions()) && Outcomes(Log()) == old(Outcomes(Log()))
    {
      Replays(Sending);
      LogSnoc(Log(), Reported);
      shared.Send(id, position);
      Replays(Exited);
    }

    /**
      The deferred send, which waits while the channel is full, here for at most `patience` turns of
      others. A channel that has room is used at once.
     */
    method Report(patience: nat) returns (reported: bool)
      requires At(Sending)
      modifies shared
      ensures At(if reported then Exited else Sending)
      ensures Emissions() == old(Emissions()) && Outcomes(Log()) == old(Outcomes(Log()))
      ensures patience > 0 && old(shared.stopped) == [] ==> reported
    {
      for k := 0 to patience
        invariant At(Sending) && Emissions() == old(Emissions()) && Outcomes(Log()) == old(Outcomes(Log()))
        invariant k > 0 ==> old(shared.stopped) != []
        invariant k == 0 ==> shared.stopped == old(shared.stopped)
      {
        if |shared.stopped| == 0 {
          SendName();
          return true;
        }
        Wait(Sending);
      }
      return false;
    }

    /**
      The goroutine, for any outcome of creating the collector and any finite choice of arms, of which
      it goes through the first `k`. It collects once for each timer arm among them, emits all that
      these collections return and nothing else, and stops at a done arm if its context is done. If it
      ends it reports its name, after closing the collector it created. At every moment it is where the
      protocol says, and its waits are those of the outcomes in its log.
     */
    method Run(createOk: bool, arms: seq<Arm>, patience: nat)
      returns (report: Option<WorkerId>, collector: Collector?, ghost k: nat)
      requires At(Creating)
      modifies `waits, shared
      ensures report.Some? ==> report.value == id && At(Exited)
      ensures report.None? ==> At(Sending) || exists n: nat :: At(Looping(n))
      ensures collector != null <==> createOk
      ensures collector != null ==> fresh(collector) && (collector.open <==> HoldsCollector(Log()))
      ensures CloseDiscipline(Log()) && Emissions() == EmittedEnvelopes(Log())
      ensures k <= |arms| && (!createOk ==> k == 0)
      ensures Through(old(Emissions()), old(Outcomes(Log())), arms[..k])
      ensures createOk && k < |arms| ==> At(Sending) || At(Exited)
      ensures createOk && old(shared.Cancelled(position)) && DoneArm in arms[..k] ==> At(Sending) || At(Exited)
    {
      var stop, errorCount;
      stop, errorCount, collector, k := Live(createOk, arms);
      report := None;
      ghost var p := if stop then Sending else Looping(errorCount);
      if stop {
        var reported := Report(patience);
        if reported {
          report, p := Some(id), Exited;
        }
      }
      Conclude(p);
    }

    /** All but the report. */
    method Live(createOk: bool, arms: seq<Arm>)
      returns (stop: bool, errorCount: nat, collector: Collector?, ghost k: nat)
      requires At(Creating)
      modifies `waits, shared
      ensures At(if stop then Sending else Looping(errorCount))
      ensures (collector != null <==> createOk) && (!createOk ==> stop && k == 0)
      ensures collector != null ==> fresh(collector) && (collector.open <==> !stop)
      ensures k <= |arms| && (!stop ==> k == |arms|)
      ensures Through(old(Emissions()), old(Outcomes(Log())), arms[..k])
      ensures old(shared.Cancelled(position)) && DoneArm in arms[..k] ==> stop
    {
      if !createOk {
        LogSnoc(Log(), CreateFailed);
        Take(CreateFailed, Creating);
        return true, 0, null, 0;
      }
      var c := new Collector();
      LogSnoc(Log(), Created);
      Take(Created, Creating);
      stop, errorCount, k := Use(c, arms);
      return stop, errorCount, c, k;
    }

    /** The select loop and, once it is left, the deferred Close. */
    method Use(collector: Collector, arms: seq<Arm>) returns (stop: bool, errorCount: nat, ghost k: nat)
      requires At(Looping(0)) && collector.open
      modifies `waits, shared, collector
      ensures At(if stop then Sending else Looping(errorCount)) && (collector.open <==> !stop)
      ensures k <= |arms| && (!stop ==> k == |arms|)
      ensures Through(old(Emissions()), old(Outcomes(Log())), arms[..k])
      ensures old(shared.Cancelled(position)) && DoneArm in arms[..k] ==> stop
    {
      stop, errorCount, k := Loop(collector, arms);
      if stop {
        Leave(collector);
      }
    }

    /** The deferred Close. */
    method Leave(collector: Collector)
      requires At(Closing) && collector.open
      modifies shared, collector
      ensures At(Sending) && !collector.open
      ensures Emissions() == old(Emissions()) && Outcomes(Log()) == old(Outcomes(Log()))
    {
      collector.Close();
      LogSnoc(Log(), Closed);
      Take(Closed, Closing);
    }

    /**
      The select loop, until it is left or the given arms are used up. It goes through the first `k`
      of them: for each timer arm it collects and emits what that returns, and it is left by the last.
     */
    method Loop(collector: Collector, arms: seq<Arm>) returns (stop: bool, errorCount: nat, ghost k: nat)
      requires At(Looping(0)) && collector.open
      modifies `waits, shared
      ensures At(if stop then Closing else Looping(errorCount))
      ensures k <= |arms| && if stop then LeftBy(arms[..k], shared.Cancelled(position)) else k == |arms|
      ensures Through(old(Emissions()), old(Outcomes(Log())), arms[..k])
      ensures old(shared.Cancelled(position)) && DoneArm in arms[..k] ==> stop
    {
      ghost var before, h, cancelled := Emissions(), Outcomes(Log()), shared.Cancelled(position);
      errorCount, stop, k := 0, false, 0;
      for i := 0 to |arms|
        invariant At(Looping(errorCount)) && k == i && Through(before, h, arms[..i])
        invariant cancelled ==> shared.Cancelled(position) && DoneArm !in arms[..i]
      {
        ArmsSnoc(before, h, id.instanceGuid, arms, i);
        errorCount, stop := IterateOn(collector, arms, i, errorCount, before, h);
        k := i + 1;
        if stop {
          return;
        }
      }
    }

    /** Iterate, for one more of the given arms. */
    method IterateOn(collector: Collector, arms: seq<Arm>, i: nat, errorCount: nat,
                     ghost before: seq<Envelope>, ghost h: seq<bool>) returns (newCount: nat, stop: bool)
      requires At(Looping(errorCount)) && collector.open && i < |arms| && Through(before, h, arms[..i])
      modifies `waits, shared
      ensures At(if stop then Closing else Looping(newCount)) && Through(before, h, arms[..i + 1])
      ensures if arms[i].DoneArm? then stop <==> old(shared.Cancelled(position)) else stop ==> arms[i].result.None?
      ensures old(shared.Cancelled(position)) ==> shared.Cancelled(position)
    {
      ArmsSnoc(before, h, id.instanceGuid, arms, i);
      newCount, stop := Iterate(collector, arms[i], errorCount);
    }

    lemma Conclude(p: Phase)
      requires At(p)
      ensures CloseDiscipline(Log()) && Emissions() == EmittedEnvelopes(Log())
      ensures HoldsCollector(Log()) <==> p.Looping? || p.Collecting? || p.Emitting? || p.Closing?
    {
      Replays(p);
      ClosesOnce(id.instanceGuid, timing.maxRetries, Log());
      HoldsCollectorByPhase(id.instanceGuid, timing.maxRetries, Log());
    }
  }
}
