/**
  What must happen between refreshes if goroutines are scheduled fairly: a worker whose context is done
  leaves the map for good, unless its own collections keep succeeding for ever.

  Fairness is weak: a group of steps of which some step stays possible is not passed over for ever.
  That a report may have to wait for the one slot of the channel, again and again, does no harm.
 */
module Fairness {
  import opened Types
  import opened WorkerLog
  import opened Desired
  import opened Protocol
  import opened Invariant
  import opened Drain
  import opened Refresh
  import opened Convergence

  /** Receiving a report and deleting its worker, or the steps of one worker. */
  datatype Group = Deletes | StepsOfWorker(r: nat)

  predicate InGroup(g: Group, l: Label) {
    match g
    case Deletes => IsDeleteLabel(l)
    case StepsOfWorker(r) => IsWorkOf(l, r)
  }

  ghost predicate Ready(c: Config, s: State, g: Group) {
    exists l :: InGroup(g, l) && Enabled(c, s, l)
  }

  ghost predicate AlwaysReady(c: Config, states: nat -> State, g: Group, n: nat) {
    forall m: nat :: n <= m ==> Ready(c, states(m), g)
  }

  ghost predicate TakenAfter(labels: nat -> Label, g: Group, n: nat) {
    exists k: nat :: n <= k && InGroup(g, labels(k))
  }

  ghost predicate WeaklyFair(c: Config, states: nat -> State, labels: nat -> Label, g: Group) {
    forall n: nat :: AlwaysReady(c, states, g, n) ==> TakenAfter(labels, g, n)
  }

  /** An infinite run from a reachable state outside a refresh, in which nothing is listed. */
  ghost predicate Quiet(c: Config, states: nat -> State, labels: nat -> Label) {
    && InfiniteRun(c, states, labels)
    && Inv(c, states(0)) && !InRefresh(states(0).pc)
    && (forall i: nat :: !IsListed(labels(i)))
  }

  lemma At(c: Config, states: nat -> State, labels: nat -> Label, n: nat, next: nat)
    requires Quiet(c, states, labels) && next == n + 1
    ensures Enabled(c, states(n), labels(n)) && states(next) == Apply(c, states(n), labels(n))
    ensures !IsListed(labels(n))
  {
    assert !IsListed(labels(n));
  }

  lemma QuietStep(c: Config, s: State, l: Label)
    requires Inv(c, s) && !InRefresh(s.pc) && Enabled(c, s, l) && !IsListed(l)
    ensures Inv(c, Apply(c, s, l)) && OnlyRemoved(s, Apply(c, s, l))
    ensures s.rootCancelled ==> Apply(c, s, l).rootCancelled
  {
    StepKeepsInv(c, s, l);
    StepOnlyRemoves(c, s, s, l);
  }

  lemma QuietAt(c: Config, states: nat -> State, labels: nat -> Label, n: nat, next: nat)
    requires Quiet(c, states, labels) && next == n + 1 && Inv(c, states(n)) && !InRefresh(states(n).pc)
    ensures Inv(c, states(next)) && OnlyRemoved(states(n), states(next))
    ensures states(n).rootCancelled ==> states(next).rootCancelled
  {
    At(c, states, labels, n, next);
    QuietStep(c, states(n), labels(n));
  }

  lemma {:induction false} QuietFrom(c: Config, states: nat -> State, labels: nat -> Label, k: nat, n: nat)
    requires Quiet(c, states, labels) && k <= n && Inv(c, states(k)) && !InRefresh(states(k).pc)
    ensures Inv(c, states(n)) && !InRefresh(states(n).pc)
    decreases n - k
  {
    if k < n {
      QuietAt(c, states, labels, k, k + 1);
      QuietFrom(c, states, labels, k + 1, n);
    }
  }

  lemma QuietInv(c: Config, states: nat -> State, labels: nat -> Label, n: nat)
    requires Quiet(c, states, labels)
    ensures Inv(c, states(n)) && !InRefresh(states(n).pc)
  {
    QuietFrom(c, states, labels, 0, n);
  }

  /** Nothing was started, keys only went, and the root context stays done if it is done. */
  ghost predicate Follows(s0: State, s: State) {
    OnlyRemoved(s0, s) && (s0.rootCancelled ==> s.rootCancelled)
  }

  lemma FollowsTwice(s0: State, s1: State, s2: State)
    requires Follows(s0, s1) && Follows(s1, s2)
    ensures Follows(s0, s2)
  {
  }

  lemma FollowsAt(c: Config, states: nat -> State, labels: nat -> Label, n: nat, next: nat)
    requires Quiet(c, states, labels) && next == n + 1
    ensures Follows(states(n), states(next))
  {
    QuietInv(c, states, labels, n);
    QuietAt(c, states, labels, n, next);
  }

  lemma FollowsItself(c: Config, states: nat -> State, labels: nat -> Label, n: nat)
    requires Quiet(c, states, labels)
    ensures Follows(states(n), states(n))
  {
    QuietInv(c, states, labels, n);
  }

  lemma {:induction false} FollowsFrom(c: Config, states: nat -> State, labels: nat -> Label, k: nat, n: nat)
    requires Quiet(c, states, labels) && k <= n
    ensures Follows(states(k), states(n))
    decreases n - k
  {
    if k == n {
      FollowsItself(c, states, labels, n);
    } else {
      var next: nat := k + 1;
      FollowsAt(c, states, labels, k, next);
      FollowsFrom(c, states, labels, next, n);
      FollowsTwice(states(k), states(next), states(n));
    }
  }

  lemma Later(c: Config, states: nat -> State, labels: nat -> Label, k: nat, n: nat)
    requires Quiet(c, states, labels) && k <= n
    ensures Inv(c, states(n)) && Follows(states(k), states(n))
  {
    QuietInv(c, states, labels, n);
    FollowsFrom(c, states, labels, k, n);
  }

  // ---- a worker whose context is done reaches its report ----

  predicate Reporting(p: Phase) {
    p.Sending? || p.Exited?
  }

  predicate CollectsOf(l: Label, r: nat) {
    IsWorkOf(l, r) && IsCollected(l)
  }

  /** From step `n` on worker `r` has no successful collection. */
  ghost predicate NoneCollected(labels: nat -> Label, r: nat, n: nat) {
    forall m: nat :: n <= m ==> !CollectsOf(labels(m), r)
  }

  lemma WeightAt(c: Config, states: nat -> State, labels: nat -> Label, r: nat, n: nat, next: nat)
    requires Quiet(c, states, labels) && next == n + 1 && r < |states(n).routines| && !CollectsOf(labels(n), r)
    ensures |states(next).routines| == |states(n).routines|
    ensures Weight(c.maxRetries, states(next).routines[r].phase) + (if IsWorkOf(labels(n), r) then 1 else 0)
            <= Weight(c.maxRetries, states(n).routines[r].phase)
  {
    QuietInv(c, states, labels, n);
    QuietAt(c, states, labels, n, next);
    At(c, states, labels, n, next);
    StepLightens(c, states(n), labels(n), r);
  }

  lemma {:induction false} WeightFalls(c: Config, states: nat -> State, labels: nat -> Label, r: nat, k: nat, n: nat)
    requires Quiet(c, states, labels) && k <= n && r < |states(k).routines| && NoneCollected(labels, r, k)
    ensures |states(n).routines| == |states(k).routines|
    ensures Weight(c.maxRetries, states(n).routines[r].phase) <= Weight(c.maxRetries, states(k).routines[r].phase)
    decreases n - k
  {
    if k < n {
      assert !CollectsOf(labels(k), r);
      WeightAt(c, states, labels, r, k, k + 1);
      WeightFalls(c, states, labels, r, k + 1, n);
    }
  }

  lemma OthersLeavePhase(c: Config, s: State, l: Label, r: nat)
    requires !InRefresh(s.pc) && r < |s.routines| && Enabled(c, s, l) && !IsWorkOf(l, r)
    ensures r < |Apply(c, s, l).routines| && Apply(c, s, l).routines[r].phase == s.routines[r].phase
  {
  }

  lemma PhaseAt(c: Config, states: nat -> State, labels: nat -> Label, r: nat, n: nat, next: nat)
    requires Quiet(c, states, labels) && next == n + 1 && r < |states(n).routines| && !IsWorkOf(labels(n), r)
    ensures |states(next).routines| == |states(n).routines|
    ensures states(next).routines[r].phase == states(n).routines[r].phase
  {
    QuietInv(c, states, labels, n);
    QuietAt(c, states, labels, n, next);
    At(c, states, labels, n, next);
    OthersLeavePhase(c, states(n), labels(n), r);
  }

  /** A worker that takes no step stays where it is. */
  lemma {:induction false} Stays(c: Config, states: nat -> State, labels: nat -> Label, r: nat, k: nat, n: nat)
    requires Quiet(c, states, labels) && k <= n && r < |states(k).routines|
    requires !TakenAfter(labels, StepsOfWorker(r), k)
    ensures |states(n).routines| == |states(k).routines|
    ensures states(n).routines[r].phase == states(k).routines[r].phase
    decreases n - k
  {
    if k < n {
      assert !InGroup(StepsOfWorker(r), labels(k));
      PhaseAt(c, states, labels, r, k, k + 1);
      Stays(c, states, labels, r, k + 1, n);
    }
  }

  lemma WorkerReady(c: Config, s: State, r: nat)
    requires PendingOk(s) && StartOk(s) && !InRefresh(s.pc)
    requires r < |s.routines| && Live(s.routines[r]) && ContextDone(s, r)
    requires s.routines[r].phase.Sending? ==> s.channel == []
    ensures Ready(c, s, StepsOfWorker(r))
  {
    var o := Answers(_ => false, _ => None);
    var l := Work(r, WayOut(o, r, s.routines[r]));
    WorkerMovesOn(c, o, s, r);
    assert InGroup(StepsOfWorker(r), l) && Enabled(c, s, l);
  }

  /** A worker that is not at its report and not past it takes another step. */
  lemma StepsAgain(c: Config, states: nat -> State, labels: nat -> Label, r: nat, n: nat)
    requires Quiet(c, states, labels) && WeaklyFair(c, states, labels, StepsOfWorker(r))
    requires r < |states(n).routines| && ContextDone(states(n), r)
    requires !states(n).routines[r].phase.Sending? && Live(states(n).routines[r])
    ensures TakenAfter(labels, StepsOfWorker(r), n)
  {
    if !TakenAfter(labels, StepsOfWorker(r), n) {
      forall m: nat | n <= m ensures Ready(c, states(m), StepsOfWorker(r)) {
        Stays(c, states, labels, r, n, m);
        Later(c, states, labels, n, m);
        WorkerReady(c, states(m), r);
      }
    }
  }

  lemma NextStep(c: Config, states: nat -> State, labels: nat -> Label, r: nat, n: nat) returns (k: nat)
    requires Quiet(c, states, labels) && WeaklyFair(c, states, labels, StepsOfWorker(r))
    requires r < |states(n).routines| && ContextDone(states(n), r) && NoneCollected(labels, r, n)
    requires !states(n).routines[r].phase.Sending? && Live(states(n).routines[r])
    ensures n < k && |states(k).routines| == |states(n).routines|
    ensures Weight(c.maxRetries, states(k).routines[r].phase) < Weight(c.maxRetries, states(n).routines[r].phase)
  {
    StepsAgain(c, states, labels, r, n);
    var j: nat :| n <= j && InGroup(StepsOfWorker(r), labels(j));
    k := j + 1;
    WeightFalls(c, states, labels, r, n, j);
    assert !CollectsOf(labels(j), r);
    WeightAt(c, states, labels, r, j, k);
  }

  lemma {:induction false} ReachesReport(c: Config, states: nat -> State, labels: nat -> Label, r: nat, n: nat)
    returns (k: nat)
    requires Quiet(c, states, labels) && WeaklyFair(c, states, labels, StepsOfWorker(r))
    requires r < |states(n).routines| && ContextDone(states(n), r) && NoneCollected(labels, r, n)
    ensures n <= k && |states(k).routines| == |states(n).routines| && Reporting(states(k).routines[r].phase)
    decreases Weight(c.maxRetries, states(n).routines[r].phase)
  {
    k := n;
    if !Reporting(states(n).routines[r].phase) {
      var j := NextStep(c, states, labels, r, n);
      Later(c, states, labels, n, j);
      k := ReachesReport(c, states, labels, r, j);
    }
  }

  // ---- the report goes through ----

  predicate IsReport(l: Label) {
    l.Work? && l.event.Reported?
  }

  ghost predicate NoReport(labels: nat -> Label, n: nat) {
    forall m: nat :: n <= m ==> !IsReport(labels(m))
  }

  function Lives(routines: seq<Routine>): seq<nat> {
    seq(|routines|, i requires 0 <= i < |routines| => if Live(routines[i]) then 1 else 0)
  }

  lemma WorkKeepsLives(c: Config, s: State, r: nat, e: Event)
    requires WorkEnabled(c, s, r, e)
    ensures Total(Lives(DoWork(c, s, r, e).routines)) == Total(Lives(s.routines)) - if e.Reported? then 1 else 0
  {
    var p, ws := Advance(c, s.routines[r], e).value, Lives(s.routines);
    var w: nat := if p.Exited? then 0 else 1;
    TotalAfter(ws, r, w);
    assert Lives(SetPhase(s.routines, r, p)) == ws[r := w];
  }

  lemma StepKeepsLives(c: Config, s: State, l: Label)
    requires !InRefresh(s.pc) && Enabled(c, s, l)
    ensures Total(Lives(Apply(c, s, l).routines)) == Total(Lives(s.routines)) - if IsReport(l) then 1 else 0
  {
    if l.Work? {
      WorkKeepsLives(c, s, l.r, l.event);
    } else {
      assert Apply(c, s, l).routines == s.routines;
    }
  }

  lemma LivesAt(c: Config, states: nat -> State, labels: nat -> Label, n: nat, next: nat)
    requires Quiet(c, states, labels) && next == n + 1
    ensures Total(Lives(states(next).routines)) ==
            Total(Lives(states(n).routines)) - if IsReport(labels(n)) then 1 else 0
  {
    At(c, states, labels, n, next);
    QuietInv(c, states, labels, n);
    StepKeepsLives(c, states(n), labels(n));
  }

  lemma {:induction false} LivesFall(c: Config, states: nat -> State, labels: nat -> Label, k: nat, n: nat)
    requires Quiet(c, states, labels) && k <= n
    ensures Total(Lives(states(n).routines)) <= Total(Lives(states(k).routines))
    decreases n - k
  {
    if k < n {
      LivesAt(c, states, labels, k, k + 1);
      LivesFall(c, states, labels, k + 1, n);
    }
  }

  lemma ReportingStep(c: Config, s: State, r: nat, e: Event)
    requires WorkEnabled(c, s, r, e) && Reporting(s.routines[r].phase)
    ensures e.Reported? && DoWork(c, s, r, e).routines[r].phase.Exited?
  {
  }

  /** The only step left to a worker at its report is the report. */
  lemma ReportingAt(c: Config, states: nat -> State, labels: nat -> Label, r: nat, n: nat, next: nat)
    requires Quiet(c, states, labels) && next == n + 1
    requires r < |states(n).routines| && Reporting(states(n).routines[r].phase)
    ensures |states(next).routines| == |states(n).routines|
    ensures IsWorkOf(labels(n), r) ==> IsReport(labels(n)) && states(next).routines[r].phase.Exited?
    ensures !IsWorkOf(labels(n), r) ==> states(next).routines[r].phase == states(n).routines[r].phase
  {
    if IsWorkOf(labels(n), r) {
      QuietInv(c, states, labels, n);
      QuietAt(c, states, labels, n, next);
      At(c, states, labels, n, next);
      ReportingStep(c, states(n), r, labels(n).event);
    } else {
      PhaseAt(c, states, labels, r, n, next);
    }
  }

  lemma {:induction false} StaysReporting(c: Config, states: nat -> State, labels: nat -> Label, r: nat, k: nat, n: nat)
    requires Quiet(c, states, labels) && k <= n && r < |states(k).routines| && Reporting(states(k).routines[r].phase)
    ensures |states(n).routines| == |states(k).routines| && Reporting(states(n).routines[r].phase)
    decreases n - k
  {
    if k < n {
      ReportingAt(c, states, labels, r, k, k + 1);
      StaysReporting(c, states, labels, r, k + 1, n);
    }
  }

  lemma DeletesReady(c: Config, s: State)
    requires Inv(c, s) && !InRefresh(s.pc) && (Deleting(s.pc) || s.channel != [])
    ensures Ready(c, s, Deletes)
  {
    var l := if s.pc.Received? then Done else if s.pc.Counted? then Delete else Receive;
    if !Deleting(s.pc) {
      assert s.channel[0] in s.channel && ExitedKey(s, s.channel[0]);
      assert s.workers != map[];
    }
    assert InGroup(Deletes, l) && Enabled(c, s, l);
  }

  lemma StepKeepsTransit(c: Config, s: State, l: Label)
    requires !InRefresh(s.pc) && Enabled(c, s, l) && !IsListed(l) && !IsReport(l)
    ensures if IsDeleteLabel(l) then InTransit(Apply(c, s, l)) < InTransit(s)
            else InTransit(Apply(c, s, l)) <= InTransit(s) && Apply(c, s, l).channel == s.channel
    ensures s.channel == [] ==> Apply(c, s, l).channel == []
  {
  }

  lemma TransitAt(c: Config, states: nat -> State, labels: nat -> Label, n: nat, next: nat)
    requires Quiet(c, states, labels) && next == n + 1 && !IsReport(labels(n))
    ensures if InGroup(Deletes, labels(n)) then InTransit(states(next)) < InTransit(states(n))
            else InTransit(states(next)) <= InTransit(states(n)) && states(next).channel == states(n).channel
    ensures states(n).channel == [] ==> states(next).channel == []
  {
    QuietInv(c, states, labels, n);
    At(c, states, labels, n, next);
    StepKeepsTransit(c, states(n), labels(n));
  }

  lemma {:induction false} TransitFalls(c: Config, states: nat -> State, labels: nat -> Label, k: nat, n: nat)
    requires Quiet(c, states, labels) && k <= n && NoReport(labels, k)
    ensures InTransit(states(n)) <= InTransit(states(k))
    ensures states(k).channel == [] || !TakenAfter(labels, Deletes, k) ==> states(n).channel == states(k).channel
    decreases n - k
  {
    if k < n {
      assert !IsReport(labels(k));
      TransitAt(c, states, labels, k, k + 1);
      TransitFalls(c, states, labels, k + 1, n);
    }
  }

  lemma ReceivesAgain(c: Config, states: nat -> State, labels: nat -> Label, n: nat)
    requires Quiet(c, states, labels) && WeaklyFair(c, states, labels, Deletes)
    requires NoReport(labels, n) && states(n).channel != []
    ensures TakenAfter(labels, Deletes, n)
  {
    if !TakenAfter(labels, Deletes, n) {
      forall m: nat | n <= m ensures Ready(c, states(m), Deletes) {
        TransitFalls(c, states, labels, n, m);
        QuietInv(c, states, labels, m);
        DeletesReady(c, states(m));
      }
    }
  }

  lemma NextReceive(c: Config, states: nat -> State, labels: nat -> Label, n: nat) returns (k: nat)
    requires Quiet(c, states, labels) && WeaklyFair(c, states, labels, Deletes)
    requires NoReport(labels, n) && states(n).channel != []
    ensures n < k && InTransit(states(k)) < InTransit(states(n))
  {
    ReceivesAgain(c, states, labels, n);
    var j: nat :| n <= j && InGroup(Deletes, labels(j));
    k := j + 1;
    TransitFalls(c, states, labels, n, j);
    assert !IsReport(labels(j));
    TransitAt(c, states, labels, j, k);
  }

  /** If nobody reports any more the channel is emptied. */
  lemma {:induction false} ChannelEmpties(c: Config, states: nat -> State, labels: nat -> Label, n: nat)
    returns (k: nat)
    requires Quiet(c, states, labels) && WeaklyFair(c, states, labels, Deletes) && NoReport(labels, n)
    ensures n <= k && states(k).channel == []
    decreases InTransit(states(n))
  {
    k := n;
    if states(n).channel != [] {
      var j := NextReceive(c, states, labels, n);
      k := ChannelEmpties(c, states, labels, j);
    }
  }

  /** While nobody reports, a worker at its report stays there. */
  lemma {:induction false} SilentSender(c: Config, states: nat -> State, labels: nat -> Label, r: nat, n: nat, m: nat)
    requires Quiet(c, states, labels) && n <= m && NoReport(labels, n)
    requires r < |states(n).routines| && states(n).routines[r].phase.Sending?
    ensures |states(m).routines| == |states(n).routines| && states(m).routines[r].phase.Sending?
    decreases m - n
  {
    if n < m {
      assert !IsReport(labels(n));
      ReportingAt(c, states, labels, r, n, n + 1);
      SilentSender(c, states, labels, r, n + 1, m);
    }
  }

  lemma SenderReady(c: Config, states: nat -> State, labels: nat -> Label, r: nat, n: nat, k: nat)
    requires Quiet(c, states, labels) && NoReport(labels, n) && n <= k && states(k).channel == []
    requires r < |states(n).routines| && ContextDone(states(n), r) && states(n).routines[r].phase.Sending?
    ensures AlwaysReady(c, states, StepsOfWorker(r), k)
  {
    forall m: nat | k <= m ensures Ready(c, states(m), StepsOfWorker(r)) {
      SilentSender(c, states, labels, r, n, m);
      TransitFalls(c, states, labels, k, m);
      Later(c, states, labels, n, m);
      WorkerReady(c, states(m), r);
    }
  }

  /** A worker at its report is not left alone there: it, or another, reports. */
  lemma SomeoneReports(c: Config, states: nat -> State, labels: nat -> Label, r: nat, n: nat)
    requires Quiet(c, states, labels)
    requires WeaklyFair(c, states, labels, Deletes) && WeaklyFair(c, states, labels, StepsOfWorker(r))
    requires r < |states(n).routines| && ContextDone(states(n), r) && states(n).routines[r].phase.Sending?
    ensures !NoReport(labels, n)
  {
    if NoReport(labels, n) {
      var k := ChannelEmpties(c, states, labels, n);
      SenderReady(c, states, labels, r, n, k);
      var j: nat :| k <= j && InGroup(StepsOfWorker(r), labels(j));
      SilentSender(c, states, labels, r, n, j);
      ReportingAt(c, states, labels, r, j, j + 1);
    }
  }

  lemma NextReport(c: Config, states: nat -> State, labels: nat -> Label, r: nat, n: nat) returns (k: nat)
    requires Quiet(c, states, labels)
    requires WeaklyFair(c, states, labels, Deletes) && WeaklyFair(c, states, labels, StepsOfWorker(r))
    requires r < |states(n).routines| && ContextDone(states(n), r) && states(n).routines[r].phase.Sending?
    ensures n < k && Total(Lives(states(k).routines)) < Total(Lives(states(n).routines))
  {
    SomeoneReports(c, states, labels, r, n);
    var j: nat :| n <= j && IsReport(labels(j));
    k := j + 1;
    LivesFall(c, states, labels, n, j);
    LivesAt(c, states, labels, j, k);
  }

  /** The report goes through: each time another worker is first, one worker less is alive. */
  lemma {:induction false} ReportGoesThrough(c: Config, states: nat -> State, labels: nat -> Label, r: nat, n: nat)
    returns (k: nat)
    requires Quiet(c, states, labels)
    requires WeaklyFair(c, states, labels, Deletes) && WeaklyFair(c, states, labels, StepsOfWorker(r))
    requires r < |states(n).routines| && ContextDone(states(n), r) && Reporting(states(n).routines[r].phase)
    ensures n <= k && |states(k).routines| == |states(n).routines| && states(k).routines[r].phase.Exited?
    decreases Total(Lives(states(n).routines))
  {
    k := n;
    if states(n).routines[r].phase.Sending? {
      var j := NextReport(c, states, labels, r, n);
      StaysReporting(c, states, labels, r, n, j);
      Later(c, states, labels, n, j);
      k := ReportGoesThrough(c, states, labels, r, j);
    }
  }

  // ---- the key leaves ----

  /** Some key refers to worker `r`. */
  predicate Refers(s: State, r: nat)
    requires r < |s.routines|
  {
    s.routines[r].id in s.workers && s.workers[s.routines[r].id] == r
  }

  function DeleteRank(s: State, id: WorkerId): nat {
    (if s.pc.Received? then 2 else if s.pc.Counted? then 1 else 0)
    + if Deleting(s.pc) && s.pc.id == id then 0 else 3
  }

  lemma DeleteLowersRank(c: Config, s: State, l: Label, id: WorkerId)
    requires ReportsOk(s) && Enabled(c, s, l) && IsDeleteLabel(l) && ExitedKey(s, id)
    ensures id in Apply(c, s, l).workers ==> DeleteRank(Apply(c, s, l), id) < DeleteRank(s, id)
  {
  }

  lemma OthersKeepRank(c: Config, s: State, l: Label, id: WorkerId)
    requires !InRefresh(s.pc) && Enabled(c, s, l) && !IsListed(l) && !IsDeleteLabel(l)
    ensures Apply(c, s, l).workers == s.workers && DeleteRank(Apply(c, s, l), id) == DeleteRank(s, id)
  {
  }

  lemma StepKeepsExited(c: Config, s: State, l: Label, r: nat)
    requires StartOk(s) && !InRefresh(s.pc) && Enabled(c, s, l) && !IsListed(l)
    requires r < |s.routines| && s.routines[r].phase.Exited?
    ensures var s' := Apply(c, s, l);
            |s'.routines| == |s.routines| && s'.routines[r].id == s.routines[r].id && s'.routines[r].phase.Exited?
  {
  }

  lemma RankAt(c: Config, states: nat -> State, labels: nat -> Label, r: nat, n: nat, next: nat)
    requires Quiet(c, states, labels) && next == n + 1
    requires r < |states(n).routines| && states(n).routines[r].phase.Exited?
    ensures |states(next).routines| == |states(n).routines| && states(next).routines[r].id == states(n).routines[r].id
    ensures states(next).routines[r].phase.Exited?
    ensures Refers(states(next), r) ==>
              var id := states(n).routines[r].id;
              && Refers(states(n), r) && DeleteRank(states(next), id) <= DeleteRank(states(n), id)
              && (IsDeleteLabel(labels(n)) ==> DeleteRank(states(next), id) < DeleteRank(states(n), id))
    ensures Refers(states(n), r) && !IsDeleteLabel(labels(n)) ==> Refers(states(next), r)
  {
    QuietInv(c, states, labels, n);
    QuietAt(c, states, labels, n, next);
    At(c, states, labels, n, next);
    StepKeepsExited(c, states(n), labels(n), r);
    var id := states(n).routines[r].id;
    if !IsDeleteLabel(labels(n)) {
      OthersKeepRank(c, states(n), labels(n), id);
    } else if Refers(states(n), r) {
      DeleteLowersRank(c, states(n), labels(n), id);
    }
  }

  lemma {:induction false} RankFalls(c: Config, states: nat -> State, labels: nat -> Label, r: nat, k: nat, n: nat)
    requires Quiet(c, states, labels) && k <= n && r < |states(k).routines|
    requires states(k).routines[r].phase.Exited?
    ensures |states(n).routines| == |states(k).routines| && states(n).routines[r].id == states(k).routines[r].id
    ensures states(n).routines[r].phase.Exited?
    ensures Refers(states(n), r) ==>
              var id := states(k).routines[r].id;
              Refers(states(k), r) && DeleteRank(states(n), id) <= DeleteRank(states(k), id)
    decreases n - k
  {
    if k < n {
      RankAt(c, states, labels, r, k, k + 1);
      RankFalls(c, states, labels, r, k + 1, n);
    }
  }

  /** Without a deletion the key stays. */
  lemma {:induction false} StaysReferred(c: Config, states: nat -> State, labels: nat -> Label, r: nat, k: nat, n: nat)
    requires Quiet(c, states, labels) && k <= n && !TakenAfter(labels, Deletes, k)
    requires r < |states(k).routines| && states(k).routines[r].phase.Exited? && Refers(states(k), r)
    ensures r < |states(n).routines| && states(n).routines[r].phase.Exited? && Refers(states(n), r)
    decreases n - k
  {
    if k < n {
      assert !InGroup(Deletes, labels(k));
      RankAt(c, states, labels, r, k, k + 1);
      StaysReferred(c, states, labels, r, k + 1, n);
    }
  }

  lemma DeletesAgain(c: Config, states: nat -> State, labels: nat -> Label, r: nat, n: nat)
    requires Quiet(c, states, labels) && WeaklyFair(c, states, labels, Deletes)
    requires r < |states(n).routines| && states(n).routines[r].phase.Exited? && Refers(states(n), r)
    ensures TakenAfter(labels, Deletes, n)
  {
    if !TakenAfter(labels, Deletes, n) {
      forall m: nat | n <= m ensures Ready(c, states(m), Deletes) {
        StaysReferred(c, states, labels, r, n, m);
        QuietInv(c, states, labels, m);
        assert ExitedKey(states(m), states(m).routines[r].id);
        DeletesReady(c, states(m));
      }
    }
  }

  lemma NextDelete(c: Config, states: nat -> State, labels: nat -> Label, r: nat, n: nat) returns (k: nat)
    requires Quiet(c, states, labels) && WeaklyFair(c, states, labels, Deletes)
    requires r < |states(n).routines| && states(n).routines[r].phase.Exited? && Refers(states(n), r)
    ensures n < k && |states(k).routines| == |states(n).routines| && states(k).routines[r].phase.Exited?
    ensures states(k).routines[r].id == states(n).routines[r].id
    ensures Refers(states(k), r) ==>
              DeleteRank(states(k), states(n).routines[r].id) < DeleteRank(states(n), states(n).routines[r].id)
  {
    DeletesAgain(c, states, labels, r, n);
    var j: nat :| n <= j && InGroup(Deletes, labels(j));
    k := j + 1;
    RankFalls(c, states, labels, r, n, j);
    RankAt(c, states, labels, r, j, k);
  }

  lemma {:induction false} KeyLeaves(c: Config, states: nat -> State, labels: nat -> Label, r: nat, n: nat)
    returns (k: nat)
    requires Quiet(c, states, labels) && WeaklyFair(c, states, labels, Deletes)
    requires r < |states(n).routines| && states(n).routines[r].phase.Exited?
    ensures n <= k && |states(k).routines| == |states(n).routines| && !Refers(states(k), r)
    decreases Refers(states(n), r), DeleteRank(states(n), states(n).routines[r].id)
  {
    k := n;
    if Refers(states(n), r) {
      var j := NextDelete(c, states, labels, r, n);
      k := KeyLeaves(c, states, labels, r, j);
    }
  }

  // ---- together ----

  /** From step `n` on no key refers to worker `r`. */
  ghost predicate GoneFrom(states: nat -> State, r: nat, n: nat) {
    forall m: nat :: n <= m ==> r < |states(m).routines| && !Refers(states(m), r)
  }

  ghost predicate CollectsForever(labels: nat -> Label, r: nat) {
    forall n: nat :: !NoneCollected(labels, r, n)
  }

  lemma StaysGone(c: Config, states: nat -> State, labels: nat -> Label, r: nat, n: nat)
    requires Quiet(c, states, labels) && r < |states(n).routines| && !Refers(states(n), r)
    ensures GoneFrom(states, r, n)
  {
    forall m: nat | n <= m ensures r < |states(m).routines| && !Refers(states(m), r) {
      Later(c, states, labels, n, m);
    }
  }

  /**
    If the main loop's deletions and the worker's own steps are scheduled fairly, a worker whose context
    is done leaves the map for good, or its collections succeed infinitely often.
   */
  lemma LeavesOrCollectsForever(c: Config, states: nat -> State, labels: nat -> Label, r: nat)
    requires Quiet(c, states, labels)
    requires WeaklyFair(c, states, labels, Deletes) && WeaklyFair(c, states, labels, StepsOfWorker(r))
    requires r < |states(0).routines| && ContextDone(states(0), r)
    ensures CollectsForever(labels, r) || exists n: nat :: GoneFrom(states, r, n)
  {
    if !CollectsForever(labels, r) {
      var n: nat :| NoneCollected(labels, r, n);
      Later(c, states, labels, 0, n);
      var i := ReachesReport(c, states, labels, r, n);
      Later(c, states, labels, 0, i);
      var j := ReportGoesThrough(c, states, labels, r, i);
      var k := KeyLeaves(c, states, labels, r, j);
      StaysGone(c, states, labels, r, k);
    }
  }

  ghost predicate CancelledGoneFrom(states: nat -> State, count: nat, n: nat) {
    forall r :: 0 <= r < count && r < |states(0).routines| && states(0).routines[r].cancelled ==> GoneFrom(states, r, n)
  }

  /** The deletions and the steps of every cancelled worker are scheduled fairly, and none collects for ever. */
  ghost predicate FairToCancelled(c: Config, states: nat -> State, labels: nat -> Label) {
    && WeaklyFair(c, states, labels, Deletes)
    && (forall r :: 0 <= r < |states(0).routines| && states(0).routines[r].cancelled ==>
          WeaklyFair(c, states, labels, StepsOfWorker(r)) && !CollectsForever(labels, r))
  }

  lemma LaterGone(states: nat -> State, r: nat, k: nat, n: nat)
    requires GoneFrom(states, r, k) && k <= n
    ensures GoneFrom(states, r, n)
  {
  }

  lemma LaterAllGone(states: nat -> State, count: nat, k: nat, n: nat)
    requires CancelledGoneFrom(states, count, k) && k <= n
    ensures CancelledGoneFrom(states, count, n)
  {
    forall r | 0 <= r < count && r < |states(0).routines| && states(0).routines[r].cancelled
      ensures GoneFrom(states, r, n)
    {
      LaterGone(states, r, k, n);
    }
  }

  lemma OneMoreGone(c: Config, states: nat -> State, labels: nat -> Label, r: nat) returns (n: nat)
    requires Quiet(c, states, labels) && FairToCancelled(c, states, labels)
    requires r < |states(0).routines| && states(0).routines[r].cancelled
    ensures GoneFrom(states, r, n)
  {
    LeavesOrCollectsForever(c, states, labels, r);
    n :| GoneFrom(states, r, n);
  }

  lemma GoneSnoc(states: nat -> State, count: nat, n: nat)
    requires CancelledGoneFrom(states, count, n)
    requires count < |states(0).routines| && (states(0).routines[count].cancelled ==> GoneFrom(states, count, n))
    ensures CancelledGoneFrom(states, count + 1, n)
  {
  }

  lemma CancelledAllLeave(c: Config, states: nat -> State, labels: nat -> Label) returns (n: nat)
    requires Quiet(c, states, labels) && FairToCancelled(c, states, labels)
    ensures CancelledGoneFrom(states, |states(0).routines|, n)
  {
    n := 0;
    for r := 0 to |states(0).routines|
      invariant CancelledGoneFrom(states, r, n)
    {
      if states(0).routines[r].cancelled {
        var before := n;
        var last := OneMoreGone(c, states, labels, r);
        n := if last < before then before else last;
        LaterGone(states, r, last, n);
        LaterAllGone(states, r, before, n);
      }
      GoneSnoc(states, r, n);
    }
  }

  lemma NoneCancelledFrom(c: Config, states: nat -> State, labels: nat -> Label, n: nat, m: nat)
    requires Quiet(c, states, labels) && CancelledGoneFrom(states, |states(0).routines|, n) && n <= m
    ensures KeysOk(states(m)) && NoKeyCancelled(states(m))
  {
    Later(c, states, labels, 0, m);
    forall id | id in states(m).workers ensures !states(m).routines[states(m).workers[id]].cancelled {
      var r := states(m).workers[id];
      assert Refers(states(m), r);
      assert !GoneFrom(states, r, n);
    }
  }

  /** From `s`, all keys are wanted, and every refresh that wants the same leaves exactly the wanted keys. */
  ghost predicate Converged(c: Config, s: State, wanted: Wanted) {
    s.workers.Keys <= wanted.Keys && KeysOk(s) && NoKeyCancelled(s) && ConvergesTo(c, s, wanted)
  }

  lemma SurvivorsConverge(c: Config, s: State, wanted: Wanted)
    requires Inv(c, s) && NoKeyCancelled(s) && s.workers.Keys <= wanted.Keys
    ensures Converged(c, s, wanted)
  {
    forall infos, mid |
      EndRefresh !in mid && IsRun(c, s, RefreshLabels(infos, mid)) && DesiredWorkers(c.drivers, infos) == wanted
      ensures LandsOn(c, s, infos, mid, wanted)
    {
      assert RefreshLabels(infos, mid)[0] == Listed(infos);
      SettledConverges(c, s, infos, mid);
    }
  }

  /**
    After every refresh, in every fair run without further listings in which no cancelled worker's
    collections succeed for ever, there comes a time from which every key is wanted, no key's worker
    is cancelled, and the next refresh that wants the same leaves exactly the wanted keys.
   */
  lemma RefreshesMustConverge(c: Config, s0: State, infos: seq<InstanceInfo>, mid: seq<Label>,
                              states: nat -> State, labels: nat -> Label) returns (n: nat)
    requires Inv(c, s0) && EndRefresh !in mid && IsRun(c, s0, RefreshLabels(infos, mid))
    requires states(0) == Exec(c, s0, RefreshLabels(infos, mid))
    requires Quiet(c, states, labels) && FairToCancelled(c, states, labels)
    ensures forall m: nat :: n <= m ==> Converged(c, states(m), DesiredWorkers(c.drivers, infos))
  {
    var wanted := DesiredWorkers(c.drivers, infos);
    RefreshRefinesSets(c, s0, infos, mid);
    n := CancelledAllLeave(c, states, labels);
    forall m: nat | n <= m ensures Converged(c, states(m), wanted) {
      Later(c, states, labels, 0, m);
      NoneCancelledFrom(c, states, labels, n, m);
      SurvivorsAreWanted(s0, wanted, states(0), states(m));
      SurvivorsConverge(c, states(m), wanted);
    }
  }
}
