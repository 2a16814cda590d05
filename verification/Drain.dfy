/**
  Shutdown: the deferred drain never blocks for good and ends unless collections keep succeeding. The
  measure that shows this also bounds what a single worker does between successful collections.
 */
module Drain {
  import opened Types
  import opened WorkerLog
  import opened Protocol
  import opened Invariant
  import opened Guarantees

  // ---- progress ----

  predicate IsCollected(l: Label) {
    l.Work? && l.event.Collected?
  }

  /** Steps that wait for a timer: a worker's next collection and the drain's one-shot log message. */
  predicate NeedsTimer(l: Label) {
    l.LogTimeout? || (l.Work? && l.event.TimerFired?)
  }

  /**
    What the drivers' calls return, by worker: whether its collector can be created, and the metrics of
    a collection or an error. One answer each is enough for a run without timers: see FollowsSomeAnswers.
   */
  datatype Answers = Answers(creates: nat -> bool, collects: nat -> Option<seq<Metric>>)

  predicate Obeys(o: Answers, l: Label) {
    l.Work? ==>
      match l.event
      case Created => o.creates(l.r)
      case CreateFailed => !o.creates(l.r)
      case Collected(ms) => o.collects(l.r) == Some(ms)
      case CollectFailed => o.collects(l.r).None?
      case _ => true
  }

  /** Steps that need no timer, with calls returning what they are given to return. */
  predicate Prompt(o: Answers, l: Label) {
    !NeedsTimer(l) && Obeys(o, l)
  }

  /** How worker `r` moves on without its timer, once its context is done. */
  function WayOut(o: Answers, r: nat, w: Routine): Event {
    match w.phase
    case Unstarted => Started
    case Creating => if o.creates(r) then Created else CreateFailed
    case Looping(_) => SawCancel
    case Collecting(_) => if o.collects(r).Some? then Collected(o.collects(r).value) else CollectFailed
    case Emitting(ms) => if ms == [] then Closed else Emitted(Envelope(w.id.instanceGuid, ms[0]))
    case Closing => Closed
    case Sending => Reported
    case Exited => Reported
  }

  lemma WorkerMovesOn(c: Config, o: Answers, s: State, r: nat)
    requires PendingOk(s) && StartOk(s) && !InStartWorker(s.pc)
    requires r < |s.routines| && Live(s.routines[r]) && ContextDone(s, r)
    requires s.routines[r].phase.Sending? ==> s.channel == []
    ensures WorkEnabled(c, s, r, WayOut(o, r, s.routines[r])) && Prompt(o, Work(r, WayOut(o, r, s.routines[r])))
  {
  }

  /** The step that moves the drain on without a timer. */
  ghost function DrainStep(o: Answers, s: State): Label
    requires KeysOk(s)
  {
    if s.pc.Received? then Done
    else if s.pc.Counted? then Delete
    else if s.workers == map[] then Return
    else if s.channel != [] then Receive
    else
      var id :| id in s.workers;
      Work(s.workers[id], WayOut(o, s.workers[id], s.routines[s.workers[id]]))
  }

  lemma DrainStepEnabled(c: Config, o: Answers, s: State)
    requires Inv(c, s) && InDrain(s.pc) && !s.pc.Returned?
    ensures Enabled(c, s, DrainStep(o, s)) && Prompt(o, DrainStep(o, s))
  {
    if s.pc.Draining? && s.workers != map[] && s.channel == [] {
      var l := DrainStep(o, s);
      var id :| id in s.workers && s.workers[id] == l.r;
      assert !ExitedKey(s, id);
      WorkerMovesOn(c, o, s, l.r);
    }
  }

  /**
    A drain runs with the root context cancelled, hence that of every worker. Despite the one-slot
    channel, and whatever the drivers' calls return, every state of a drain that has not returned has
    an enabled step that needs no timer; so a drain that can go no further has returned.
   */
  lemma DrainNeverBlocks(c: Config, o: Answers, labels: seq<Label>)
    requires IsRun(c, Init(), labels) && InDrain(Exec(c, Init(), labels).pc)
    ensures var s := Exec(c, Init(), labels);
            && (forall r :: 0 <= r < |s.routines| ==> ContextDone(s, r))
            && (s.pc.Returned? <==> forall l :: !Prompt(o, l) || !Enabled(c, s, l))
  {
    ReachableInv(c, labels);
    var s := Exec(c, Init(), labels);
    if s.pc.Returned? {
      QuiescentWhenRunReturns(c, labels);
    } else {
      DrainStepEnabled(c, o, s);
    }
  }

  /** Outside its select statements and after Run returned, the main loop always has a step of its own. */
  lemma MainLoopNeverStuck(c: Config, labels: seq<Label>)
    requires IsRun(c, Init(), labels)
    ensures var s := Exec(c, Init(), labels);
            s.pc.AtSelect? || s.pc.Draining? || s.pc.Returned? || exists l :: !IsOther(l) && Enabled(c, s, l)
  {
    ReachableInv(c, labels);
    var s := Exec(c, Init(), labels);
    var l := match s.pc
      case Starting(_, todo) => if todo == {} then EndStarts else var id :| id in todo; VisitDesired(id)
      case Inserted(_, _, _) => Add
      case Added(_, _, _) => Go
      case Cancelling(_, todo) => if todo == {} then EndRefresh else var id :| id in todo; VisitWorker(id)
      case Received(_, _) => Done
      case Counted(_, _) => Delete
      case _ => ListFailed;
    assert !(s.pc.AtSelect? || s.pc.Draining? || s.pc.Returned?) ==> !IsOther(l) && Enabled(c, s, l);
  }

  // ---- termination ----

  function RetriesLeft(maxRetries: int, n: nat): nat {
    if n <= maxRetries then maxRetries - n else 0
  }

  function Weight(maxRetries: int, p: Phase): nat {
    match p
    case Unstarted => 9 + 2 * RetriesLeft(maxRetries, 0)
    case Creating => 8 + 2 * RetriesLeft(maxRetries, 0)
    case Looping(n) => 7 + 2 * RetriesLeft(maxRetries, n)
    case Collecting(n) => 6 + 2 * RetriesLeft(maxRetries, n)
    case Emitting(ms) => 7 + 2 * RetriesLeft(maxRetries, 0) + |ms|
    case Closing => 5
    case Sending => 4
    case Exited => 0
  }

  function Total(ws: seq<nat>): nat {
    if ws == [] then 0 else Total(ws[..|ws| - 1]) + ws[|ws| - 1]
  }

  lemma {:induction false} TotalAfter(ws: seq<nat>, r: nat, w: nat)
    requires r < |ws|
    ensures Total(ws[r := w]) == Total(ws) - ws[r] + w
  {
    var n := |ws| - 1;
    if r == n {
      assert ws[r := w][..n] == ws[..n];
    } else {
      TotalAfter(ws[..n], r, w);
      assert ws[r := w][..n] == ws[..n][r := w];
    }
  }

  function Weights(maxRetries: int, routines: seq<Routine>): seq<nat> {
    seq(|routines|, i requires 0 <= i < |routines| => Weight(maxRetries, routines[i].phase))
  }

  function PcWeight(pc: Pc): nat {
    match pc
    case Received(_, _) => 3
    case Counted(_, _) => 2
    case Draining => 1
    case AtSelect => 1
    case _ => 0
  }

  /** Reports that have been sent and not been dealt with. */
  function InTransit(s: State): nat {
    3 * |s.channel| + PcWeight(s.pc)
  }

  /** Remaining retries, worker phases, reports on their way and the one-shot log timer. */
  function Measure(c: Config, s: State): nat {
    Total(Weights(c.maxRetries, s.routines)) + InTransit(s) + if s.logTimerArmed then 1 else 0
  }

  /** What a successful collection may add: a fresh allowance of retries and its metrics to emit. */
  function Refill(c: Config, l: Label): nat {
    if IsCollected(l) then 2 + 2 * RetriesLeft(c.maxRetries, 0) + |l.event.metrics| else 0
  }

  /** One event of a worker, weighed: a report is worth 3 in the channel. */
  lemma EventLightens(guid: string, maxRetries: int, p: Phase, e: Event)
    requires Next(guid, maxRetries, p, e).Some? && !e.Collected?
    ensures Weight(maxRetries, Next(guid, maxRetries, p, e).value) + (if e.Reported? then 3 else 0)
            < Weight(maxRetries, p)
  {
  }

  lemma WorkDescends(c: Config, s: State, r: nat, e: Event)
    requires WorkEnabled(c, s, r, e)
    ensures Measure(c, DoWork(c, s, r, e)) < Measure(c, s) + Refill(c, Work(r, e))
  {
    var w := s.routines[r];
    var p, ws := Advance(c, w, e).value, Weights(c.maxRetries, s.routines);
    TotalAfter(ws, r, Weight(c.maxRetries, p));
    assert Weights(c.maxRetries, SetPhase(s.routines, r, p)) == ws[r := Weight(c.maxRetries, p)];
    if !e.Collected? {
      EventLightens(w.id.instanceGuid, c.maxRetries, w.phase, e);
    }
  }

  /** Every drain step other than a successful collection brings the drain strictly closer to its end. */
  lemma DrainStepDescends(c: Config, s: State, l: Label)
    requires DrainOk(s) && InDrain(s.pc) && Enabled(c, s, l)
    ensures InDrain(Apply(c, s, l).pc)
    ensures Measure(c, Apply(c, s, l)) < Measure(c, s) + Refill(c, l)
  {
    if l.Work? {
      WorkDescends(c, s, l.r, l.event);
    }
  }

  function Refills(c: Config, labels: seq<Label>): nat {
    if labels == [] then 0 else Refill(c, labels[0]) + Refills(c, labels[1..])
  }

  /** The length of a drain is bounded by its starting measure and what its successful collections add. */
  lemma {:induction false} DrainIsBounded(c: Config, s: State, labels: seq<Label>)
    requires Inv(c, s) && InDrain(s.pc) && IsRun(c, s, labels)
    ensures InDrain(Exec(c, s, labels).pc)
    ensures |labels| + Measure(c, Exec(c, s, labels)) <= Measure(c, s) + Refills(c, labels)
    decreases |labels|
  {
    if labels != [] {
      StepKeepsInv(c, s, labels[0]);
      DrainStepDescends(c, s, labels[0]);
      DrainIsBounded(c, Apply(c, s, labels[0]), labels[1..]);
    }
  }

  // ---- one worker ----

  predicate IsWorkOf(l: Label, r: nat) {
    l.Work? && l.r == r
  }

  function StepsOf(labels: seq<Label>, r: nat): nat {
    if labels == [] then 0 else (if IsWorkOf(labels[0], r) then 1 else 0) + StepsOf(labels[1..], r)
  }

  function RefillsOf(c: Config, labels: seq<Label>, r: nat): nat {
    if labels == [] then 0 else
    (if IsWorkOf(labels[0], r) then Refill(c, labels[0]) else 0) + RefillsOf(c, labels[1..], r)
  }

  lemma StepLightens(c: Config, s: State, l: Label, r: nat)
    requires StartOk(s) && r < |s.routines| && Enabled(c, s, l)
    ensures var s' := Apply(c, s, l);
            && r < |s'.routines|
            && (if IsWorkOf(l, r) then 1 else 0) + Weight(c.maxRetries, s'.routines[r].phase)
               <= Weight(c.maxRetries, s.routines[r].phase) + if IsWorkOf(l, r) then Refill(c, l) else 0
  {
    if IsWorkOf(l, r) && !IsCollected(l) {
      EventLightens(s.routines[r].id.instanceGuid, c.maxRetries, s.routines[r].phase, l.event);
    }
  }

  /**
    In any run, drain or not, a worker takes no more steps than its phase weighs, plus what its own
    successful collections add. So between successful collections it takes a bounded number of steps.
   */
  lemma {:induction false} WorkerIsBounded(c: Config, s: State, labels: seq<Label>, r: nat)
    requires Inv(c, s) && r < |s.routines| && IsRun(c, s, labels)
    ensures r < |Exec(c, s, labels).routines|
    ensures StepsOf(labels, r) + Weight(c.maxRetries, Exec(c, s, labels).routines[r].phase)
            <= Weight(c.maxRetries, s.routines[r].phase) + RefillsOf(c, labels, r)
    decreases |labels|
  {
    if labels != [] {
      StepKeepsInv(c, s, labels[0]);
      StepLightens(c, s, labels[0], r);
      WorkerIsBounded(c, Apply(c, s, labels[0]), labels[1..], r);
    }
  }

  // ---- infinite drains ----

  ghost predicate InfiniteRun(c: Config, states: nat -> State, labels: nat -> Label) {
    forall i: nat {:trigger labels(i)} ::
      Enabled(c, states(i), labels(i)) && states(i + 1) == Apply(c, states(i), labels(i))
  }

  lemma {:induction false} InfiniteRunInDrain(c: Config, states: nat -> State, labels: nat -> Label, n: nat)
    requires InfiniteRun(c, states, labels) && Inv(c, states(0)) && InDrain(states(0).pc)
    ensures Inv(c, states(n)) && InDrain(states(n).pc)
  {
    if n > 0 {
      InfiniteRunInDrain(c, states, labels, n - 1);
      assert Enabled(c, states(n - 1), labels(n - 1)) && states(n - 1 + 1) == Apply(c, states(n - 1), labels(n - 1));
      StepKeepsInv(c, states(n - 1), labels(n - 1));
      DrainStepDescends(c, states(n - 1), labels(n - 1));
    }
  }

  /** From step `n` on there is another successful collection. */
  lemma NextCollected(c: Config, states: nat -> State, labels: nat -> Label, n: nat) returns (k: nat)
    requires InfiniteRun(c, states, labels) && Inv(c, states(0)) && InDrain(states(0).pc)
    ensures n <= k && IsCollected(labels(k))
    decreases Measure(c, states(n))
  {
    if IsCollected(labels(n)) {
      k := n;
    } else {
      InfiniteRunInDrain(c, states, labels, n);
      assert Enabled(c, states(n), labels(n)) && states(n + 1) == Apply(c, states(n), labels(n));
      DrainStepDescends(c, states(n), labels(n));
      k := NextCollected(c, states, labels, n + 1);
    }
  }

  ghost predicate CollectsAfter(labels: nat -> Label, n: nat) {
    exists k: nat :: n <= k && IsCollected(labels(k))
  }

  /**
    A drain that never ends contains infinitely many successful collections. So any drain with
    finitely many of them ends, and by DrainNeverBlocks it ends with Run returning.
   */
  lemma EndlessDrainCollectsForever(c: Config, before: seq<Label>, states: nat -> State, labels: nat -> Label)
    requires IsRun(c, Init(), before) && states(0) == Exec(c, Init(), before) && InDrain(states(0).pc)
    requires InfiniteRun(c, states, labels)
    ensures forall n: nat :: CollectsAfter(labels, n)
  {
    ReachableInv(c, before);
    forall n: nat ensures CollectsAfter(labels, n) {
      var k := NextCollected(c, states, labels, n);
    }
  }

  // ---- without timers ----

  /** What a worker still has to do without its timer, if calls return what they are given to return. */
  function Load(o: Answers, r: nat, p: Phase): nat {
    match p
    case Unstarted => 9
    case Creating => 8
    case Looping(_) => 6
    case Collecting(_) => 7 + if o.collects(r).Some? then |o.collects(r).value| else 0
    case Emitting(ms) => 6 + |ms|
    case Closing => 5
    case Sending => 4
    case Exited => 0
  }

  function Loads(o: Answers, routines: seq<Routine>): seq<nat> {
    seq(|routines|, i requires 0 <= i < |routines| => Load(o, i, routines[i].phase))
  }

  function Outstanding(o: Answers, s: State): nat {
    Total(Loads(o, s.routines)) + InTransit(s)
  }

  lemma PromptEventLightens(guid: string, maxRetries: int, o: Answers, r: nat, p: Phase, e: Event)
    requires Next(guid, maxRetries, p, e).Some? && Prompt(o, Work(r, e))
    ensures Load(o, r, Next(guid, maxRetries, p, e).value) + (if e.Reported? then 3 else 0) < Load(o, r, p)
  {
  }

  lemma PromptWorkDescends(c: Config, o: Answers, s: State, r: nat, e: Event)
    requires WorkEnabled(c, s, r, e) && Prompt(o, Work(r, e))
    ensures Outstanding(o, DoWork(c, s, r, e)) < Outstanding(o, s)
  {
    var w := s.routines[r];
    var p, ws := Advance(c, w, e).value, Loads(o, s.routines);
    PromptEventLightens(w.id.instanceGuid, c.maxRetries, o, r, w.phase, e);
    TotalAfter(ws, r, Load(o, r, p));
    assert Loads(o, SetPhase(s.routines, r, p)) == ws[r := Load(o, r, p)];
  }

  lemma PromptStepDescends(c: Config, o: Answers, s: State, l: Label)
    requires DrainOk(s) && InDrain(s.pc) && Enabled(c, s, l) && Prompt(o, l)
    ensures InDrain(Apply(c, s, l).pc) && Outstanding(o, Apply(c, s, l)) < Outstanding(o, s)
  {
    if l.Work? {
      PromptWorkDescends(c, o, s, l.r, l.event);
    }
  }

  predicate AllPrompt(o: Answers, labels: seq<Label>) {
    forall i :: 0 <= i < |labels| ==> Prompt(o, labels[i])
  }

  /** Without timers every drain is bounded, whatever its calls return and however it is scheduled. */
  lemma {:induction false} PromptDrainIsBounded(c: Config, o: Answers, s: State, labels: seq<Label>)
    requires Inv(c, s) && InDrain(s.pc) && IsRun(c, s, labels) && AllPrompt(o, labels)
    ensures InDrain(Exec(c, s, labels).pc)
    ensures |labels| + Outstanding(o, Exec(c, s, labels)) <= Outstanding(o, s)
    decreases |labels|
  {
    if labels != [] {
      assert Prompt(o, labels[0]);
      StepKeepsInv(c, s, labels[0]);
      PromptStepDescends(c, o, s, labels[0]);
      PromptDrainIsBounded(c, o, Apply(c, s, labels[0]), labels[1..]);
    }
  }

  // ---- every run without timers has its answers ----

  predicate Creates(l: Label, r: nat) {
    IsWorkOf(l, r) && (l.event.Created? || l.event.CreateFailed?)
  }

  predicate Collects(l: Label, r: nat) {
    IsWorkOf(l, r) && (l.event.Collected? || l.event.CollectFailed?)
  }

  function CreateAnswer(labels: seq<Label>, r: nat): bool {
    labels != [] && if Creates(labels[0], r) then labels[0].event.Created? else CreateAnswer(labels[1..], r)
  }

  function CollectAnswer(labels: seq<Label>, r: nat): Option<seq<Metric>> {
    if labels == [] then None
    else if !Collects(labels[0], r) then CollectAnswer(labels[1..], r)
    else if labels[0].event.Collected? then Some(labels[0].event.metrics) else None
  }

  /** The first answers that each worker gets in a run. */
  function FirstAnswers(labels: seq<Label>): Answers {
    Answers((r: nat) => CreateAnswer(labels, r), (r: nat) => CollectAnswer(labels, r))
  }

  predicate TimerFree(labels: seq<Label>) {
    forall i :: 0 <= i < |labels| ==> !NeedsTimer(labels[i])
  }

  /** The worker waits for no answer of the one kind, or of the other. */
  predicate Past(p: Phase, collecting: bool) {
    if collecting then !p.Collecting? else !p.Unstarted? && !p.Creating?
  }

  predicate Answered(l: Label, r: nat, collecting: bool) {
    if collecting then Collects(l, r) else Creates(l, r)
  }

  lemma StaysPast(c: Config, s: State, l: Label, r: nat, collecting: bool)
    requires InDrain(s.pc) && Enabled(c, s, l) && !NeedsTimer(l) && r < |s.routines|
    requires Past(s.routines[r].phase, collecting) || Answered(l, r, collecting)
    ensures r < |Apply(c, s, l).routines| && Past(Apply(c, s, l).routines[r].phase, collecting)
    ensures Past(s.routines[r].phase, collecting) ==> !Answered(l, r, collecting)
  {
  }

  lemma {:induction false} NoSecondAnswer(c: Config, s: State, labels: seq<Label>, r: nat, collecting: bool)
    requires Inv(c, s) && InDrain(s.pc) && IsRun(c, s, labels) && TimerFree(labels)
    requires r < |s.routines| && Past(s.routines[r].phase, collecting)
    ensures forall i :: 0 <= i < |labels| ==> !Answered(labels[i], r, collecting)
    decreases |labels|
  {
    if labels != [] {
      var l := labels[0];
      assert !NeedsTimer(l);
      StaysPast(c, s, l, r, collecting);
      StepKeepsInv(c, s, l);
      DrainStepDescends(c, s, l);
      NoSecondAnswer(c, Apply(c, s, l), labels[1..], r, collecting);
      assert labels == [l] + labels[1..];
    }
  }

  lemma NoSecondAfter(c: Config, s: State, labels: seq<Label>, collecting: bool)
    requires Inv(c, s) && InDrain(s.pc) && labels != [] && IsRun(c, s, labels) && TimerFree(labels)
    requires labels[0].Work? && Answered(labels[0], labels[0].r, collecting)
    ensures forall i :: 0 < i < |labels| ==> !Answered(labels[i], labels[0].r, collecting)
  {
    var l, rest := labels[0], labels[1..];
    assert !NeedsTimer(l);
    StaysPast(c, s, l, l.r, collecting);
    StepKeepsInv(c, s, l);
    DrainStepDescends(c, s, l);
    NoSecondAnswer(c, Apply(c, s, l), rest, l.r, collecting);
    forall i | 0 < i < |labels| ensures !Answered(labels[i], l.r, collecting) {
      assert labels[i] == rest[i - 1];
    }
  }

  /** What the first label answers does not matter to a label that gives no answer of that kind to that worker. */
  lemma ObeysLonger(labels: seq<Label>, l: Label)
    requires labels != [] && Obeys(FirstAnswers(labels[1..]), l)
    requires l.Work? && Creates(l, l.r) ==> !Creates(labels[0], l.r)
    requires l.Work? && Collects(l, l.r) ==> !Collects(labels[0], l.r)
    ensures Obeys(FirstAnswers(labels), l)
  {
  }

  lemma LaterLabelObeys(c: Config, s: State, labels: seq<Label>, i: nat)
    requires Inv(c, s) && InDrain(s.pc) && IsRun(c, s, labels) && TimerFree(labels)
    requires 0 < i < |labels| && Obeys(FirstAnswers(labels[1..]), labels[i])
    ensures Obeys(FirstAnswers(labels), labels[i])
  {
    var l := labels[0];
    if l.Work? && Creates(l, l.r) {
      NoSecondAfter(c, s, labels, false);
      assert !Answered(labels[i], l.r, false);
    }
    if l.Work? && Collects(l, l.r) {
      NoSecondAfter(c, s, labels, true);
      assert !Answered(labels[i], l.r, true);
    }
    ObeysLonger(labels, labels[i]);
  }

  /** Every drain without timers obeys some answers, namely the first it contains. */
  lemma {:induction false} FollowsSomeAnswers(c: Config, s: State, labels: seq<Label>)
    requires Inv(c, s) && InDrain(s.pc) && IsRun(c, s, labels) && TimerFree(labels)
    ensures AllPrompt(FirstAnswers(labels), labels)
    decreases |labels|
  {
    if labels != [] {
      var l, rest := labels[0], labels[1..];
      StepKeepsInv(c, s, l);
      DrainStepDescends(c, s, l);
      assert forall i :: 0 <= i < |rest| ==> rest[i] == labels[i + 1];
      FollowsSomeAnswers(c, Apply(c, s, l), rest);
      forall i | 0 <= i < |labels| ensures Prompt(FirstAnswers(labels), labels[i]) {
        if i > 0 {
          assert labels[i] == rest[i - 1] && Prompt(FirstAnswers(rest), rest[i - 1]);
          LaterLabelObeys(c, s, labels, i);
        }
      }
    }
  }

  /** So a drain in which no timer fires is bounded by the answers it gets, however it is scheduled. */
  lemma TimerFreeDrainIsBounded(c: Config, s: State, labels: seq<Label>)
    requires Inv(c, s) && InDrain(s.pc) && IsRun(c, s, labels) && TimerFree(labels)
    ensures |labels| <= Outstanding(FirstAnswers(labels), s)
  {
    FollowsSomeAnswers(c, s, labels);
    PromptDrainIsBounded(c, FirstAnswers(labels), s, labels);
  }

  /**
    Whatever the drivers' calls return, from every drain state Run can return without any timer. By
    DrainNeverBlocks and TimerFreeDrainIsBounded every run without timers ends so if it is continued.
   */
  lemma {:induction false} DrainCanFinish(c: Config, o: Answers, s: State) returns (labels: seq<Label>)
    requires Inv(c, s) && InDrain(s.pc)
    ensures IsRun(c, s, labels) && Exec(c, s, labels).pc.Returned?
    ensures AllPrompt(o, labels) && |labels| <= Outstanding(o, s)
    decreases Outstanding(o, s)
  {
    if s.pc.Returned? {
      labels := [];
    } else {
      var l := DrainStep(o, s);
      DrainStepEnabled(c, o, s);
      PromptStepDescends(c, o, s, l);
      StepKeepsInv(c, s, l);
      var rest := DrainCanFinish(c, o, Apply(c, s, l));
      labels := [l] + rest;
      assert labels[1..] == rest;
    }
  }
}
