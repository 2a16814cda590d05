/**
  What every step of the protocol keeps, for any number of workers and every interleaving, and what
  follows for every reachable state.
 */
module Invariant {
  import opened Types
  import opened WorkerLog
  import opened Protocol

  predicate Deleting(pc: Pc) {
    pc.Received? || pc.Counted?
  }

  predicate InStartWorker(pc: Pc) {
    pc.Inserted? || pc.Added?
  }

  predicate InRefresh(pc: Pc) {
    pc.Starting? || InStartWorker(pc) || pc.Cancelling?
  }

  predicate InDrain(pc: Pc) {
    pc.Draining? || pc.Returned? || (Deleting(pc) && pc.draining)
  }

  predicate Live(w: Routine) {
    !w.phase.Exited?
  }

  // ---- the parts of the invariant ----

  /** Every key of the map refers to a worker of that name. */
  ghost predicate KeysOk(s: State) {
    forall id :: id in s.workers ==> s.workers[id] < |s.routines| && s.routines[s.workers[id]].id == id
  }

  /** A worker that has not exited is the one its name refers to, so there is at most one per name. */
  ghost predicate LiveOk(s: State) {
    forall r :: 0 <= r < |s.routines| && Live(s.routines[r]) ==>
      s.routines[r].id in s.workers && s.workers[s.routines[r].id] == r
  }

  ghost predicate ExitedKey(s: State, id: WorkerId) {
    id in s.workers && s.workers[id] < |s.routines| && !Live(s.routines[s.workers[id]])
  }

  /** The name of an exited worker that is still in the map is in the channel or in the main loop's hands. */
  ghost predicate ReportsOk(s: State) {
    && |s.channel| <= 1
    && (forall id :: id in s.channel ==> ExitedKey(s, id))
    && (Deleting(s.pc) ==> ExitedKey(s, s.pc.id) && s.pc.id !in s.channel)
    && (forall id :: ExitedKey(s, id) ==> id in s.channel || (Deleting(s.pc) && s.pc.id == id))
  }

  /** Only the worker that startWorker is in the middle of starting has no goroutine. */
  ghost predicate StartOk(s: State) {
    && (InStartWorker(s.pc) ==>
          && s.pc.id in s.workers && s.pc.id in s.pc.desired && s.workers[s.pc.id] < |s.routines|
          && s.routines[s.workers[s.pc.id]].phase.Unstarted?)
    && (forall r :: 0 <= r < |s.routines| && s.routines[r].phase.Unstarted? ==>
          InStartWorker(s.pc) && s.routines[r].id == s.pc.id)
  }

  /** The loops of a refresh only have keys left to visit that exist. */
  ghost predicate TodoOk(s: State) {
    && (s.pc.Starting? || InStartWorker(s.pc) ==> s.pc.todo <= s.pc.desired.Keys)
    && (s.pc.Cancelling? ==> s.pc.todo <= s.workers.Keys)
  }

  ghost predicate DrainOk(s: State) {
    && (InDrain(s.pc) ==> s.rootCancelled)
    && (!InDrain(s.pc) ==> s.logTimerArmed)
    && (s.pc.Returned? ==> s.workers == map[])
  }

  function Uncounted(pc: Pc): nat {
    if pc.Inserted? || pc.Counted? then 1 else 0
  }

  ghost predicate CountOk(s: State) {
    s.waitGroup == |s.workers| - Uncounted(s.pc)
  }

  /** The phase of every worker is what its own log says. */
  ghost predicate LogsOk(c: Config, s: State) {
    && (forall r :: 0 <= r < |s.routines| ==>
          Replay(s.routines[r].id.instanceGuid, c.maxRetries, LogOf(s.trace, r)) == Some(s.routines[r].phase))
    && (forall r: nat :: r >= |s.routines| ==> LogOf(s.trace, r) == [])
  }

  ghost predicate PendingOk(s: State) {
    forall r :: 0 <= r < |s.routines| && s.routines[r].phase.Emitting? ==> s.routines[r].phase.pending != []
  }

  ghost predicate TokensOk(s: State) {
    KeysOk(s) && LiveOk(s) && ReportsOk(s) && StartOk(s) && TodoOk(s)
  }

  ghost predicate Inv(c: Config, s: State) {
    TokensOk(s) && DrainOk(s) && CountOk(s) && PendingOk(s) && LogsOk(c, s)
  }

  // ---- preservation ----

  predicate IsDeleteLabel(l: Label) {
    l.Receive? || l.Done? || l.Delete?
  }

  lemma StepKeepsTokensDelete(c: Config, s: State, l: Label)
    requires TokensOk(s) && Enabled(c, s, l) && IsDeleteLabel(l)
    ensures TokensOk(Apply(c, s, l))
  {
    var s' := Apply(c, s, l);
    if l.Receive? {
      assert s.channel == [s.channel[0]] && s.channel[0] in s.channel;
      assert ExitedKey(s, s.channel[0]);
    }
    forall id | ExitedKey(s', id)
      ensures id in s'.channel || (Deleting(s'.pc) && s'.pc.id == id)
    {
      assert ExitedKey(s, id);
    }
  }

  lemma InsertKeepsTokens(c: Config, s: State, id: WorkerId)
    requires TokensOk(s) && Enabled(c, s, VisitDesired(id)) && id !in s.workers
    ensures TokensOk(DoVisitDesired(c, s, id))
  {
    var s' := DoVisitDesired(c, s, id);
    assert KeysOk(s') && LiveOk(s');
    assert forall k :: ExitedKey(s', k) <==> ExitedKey(s, k);
  }

  lemma GoKeepsTokens(c: Config, s: State)
    requires TokensOk(s) && Enabled(c, s, Go)
    ensures TokensOk(DoGo(s))
  {
  }

  lemma VisitWorkerKeepsTokens(c: Config, s: State, id: WorkerId)
    requires TokensOk(s) && Enabled(c, s, VisitWorker(id))
    ensures TokensOk(DoVisitWorker(s, id))
  {
  }

  /** Tokens do not care where the main loop is, outside startWorker and deleteWorker. */
  lemma PcMoveKeepsTokens(s: State, s': State)
    requires TokensOk(s) && TodoOk(s')
    requires s'.workers == s.workers && s'.routines == s.routines && s'.channel == s.channel
    requires s'.pc != s.pc ==> !Deleting(s.pc) && !Deleting(s'.pc)
    requires InStartWorker(s'.pc) <==> InStartWorker(s.pc)
    requires InStartWorker(s.pc) ==> s'.pc.id == s.pc.id && s'.pc.desired == s.pc.desired
    ensures TokensOk(s')
  {
    assert forall id :: ExitedKey(s', id) <==> ExitedKey(s, id);
  }

  /** The steps that only move the main loop's position. */
  lemma StepKeepsTokensRest(c: Config, s: State, l: Label)
    requires TokensOk(s) && Enabled(c, s, l) && !l.Work? && !IsDeleteLabel(l) && !l.Go? && !l.VisitWorker?
    requires l.VisitDesired? ==> l.id in s.workers
    ensures TokensOk(Apply(c, s, l))
  {
    PcMoveKeepsTokens(s, Apply(c, s, l));
  }

  lemma StepKeepsTokensWork(c: Config, s: State, r: nat, e: Event)
    requires TokensOk(s) && WorkEnabled(c, s, r, e)
    ensures TokensOk(DoWork(c, s, r, e))
  {
    var s' := DoWork(c, s, r, e);
    forall id | ExitedKey(s', id)
      ensures id in s'.channel || (Deleting(s'.pc) && s'.pc.id == id)
    {
      assert s'.workers[id] == r || ExitedKey(s, id);
    }
  }

  lemma MapSizes<K, V>(m: map<K, V>, k: K, v: V)
    ensures k !in m ==> |m[k := v]| == |m| + 1
    ensures k in m ==> |m - {k}| == |m| - 1
  {
    assert m[k := v].Keys == m.Keys + {k};
    assert (m - {k}).Keys == m.Keys - {k};
  }

  lemma StepKeepsCount(c: Config, s: State, l: Label)
    requires ReportsOk(s) && CountOk(s) && Enabled(c, s, l)
    ensures CountOk(Apply(c, s, l))
  {
    if l.VisitDesired? {
      MapSizes(s.workers, l.id, |s.routines|);
    } else if l.Delete? {
      MapSizes(s.workers, s.pc.id, 0);
    }
  }

  lemma StepKeepsDrain(c: Config, s: State, l: Label)
    requires DrainOk(s) && Enabled(c, s, l)
    ensures DrainOk(Apply(c, s, l))
  {
  }

  lemma StepKeepsPending(c: Config, s: State, l: Label)
    requires PendingOk(s) && Enabled(c, s, l)
    ensures PendingOk(Apply(c, s, l))
  {
  }

  lemma LogsAfterEvent(c: Config, s: State, s': State, r: nat, e: Event)
    requires LogsOk(c, s) && r < |s.routines| && Advance(c, s.routines[r], e).Some?
    requires s'.routines == SetPhase(s.routines, r, Advance(c, s.routines[r], e).value)
    requires s'.trace == s.trace + [Did(r, e)]
    ensures LogsOk(c, s')
  {
    forall q: nat
      ensures LogOf(s'.trace, q) == if q == r then LogOf(s.trace, q) + [e] else LogOf(s.trace, q)
    {
      LogOfSnoc(s.trace, Did(r, e), q);
    }
    ReplaySnoc(s.routines[r].id.instanceGuid, c.maxRetries, LogOf(s.trace, r), e);
  }

  lemma LogsAfterListing(c: Config, s: State, s': State, infos: seq<InstanceInfo>)
    requires LogsOk(c, s) && s'.routines == s.routines && s'.trace == s.trace + [Listing(infos)]
    ensures LogsOk(c, s')
  {
    forall q: nat ensures LogOf(s'.trace, q) == LogOf(s.trace, q) {
      LogOfSnoc(s.trace, Listing(infos), q);
    }
  }

  lemma StepKeepsLogs(c: Config, s: State, l: Label)
    requires StartOk(s) && LogsOk(c, s) && Enabled(c, s, l)
    ensures LogsOk(c, Apply(c, s, l))
  {
    if l.Work? {
      LogsAfterEvent(c, s, DoWork(c, s, l.r, l.event), l.r, l.event);
    } else if l.Go? {
      LogsAfterEvent(c, s, DoGo(s), s.workers[s.pc.id], Started);
    } else if l.Listed? {
      LogsAfterListing(c, s, Apply(c, s, l), l.infos);
    } else if l.VisitDesired? {
      assert LogOf(s.trace, |s.routines|) == [];
    }
  }

  lemma StepKeepsInv(c: Config, s: State, l: Label)
    requires Inv(c, s) && Enabled(c, s, l)
    ensures Inv(c, Apply(c, s, l))
  {
    if l.Work? {
      StepKeepsTokensWork(c, s, l.r, l.event);
    } else if IsDeleteLabel(l) {
      StepKeepsTokensDelete(c, s, l);
    } else if l.VisitDesired? && l.id !in s.workers {
      InsertKeepsTokens(c, s, l.id);
    } else if l.Go? {
      GoKeepsTokens(c, s);
    } else if l.VisitWorker? {
      VisitWorkerKeepsTokens(c, s, l.id);
    } else {
      StepKeepsTokensRest(c, s, l);
    }
    StepKeepsCount(c, s, l);
    StepKeepsDrain(c, s, l);
    StepKeepsPending(c, s, l);
    StepKeepsLogs(c, s, l);
  }

  lemma {:induction false} RunKeepsInv(c: Config, s: State, labels: seq<Label>)
    requires Inv(c, s) && IsRun(c, s, labels)
    ensures Inv(c, Exec(c, s, labels))
    decreases |labels|
  {
    if labels != [] {
      StepKeepsInv(c, s, labels[0]);
      RunKeepsInv(c, Apply(c, s, labels[0]), labels[1..]);
    }
  }

  lemma ReachableInv(c: Config, labels: seq<Label>)
    requires IsRun(c, Init(), labels)
    ensures Inv(c, Exec(c, Init(), labels))
  {
    RunKeepsInv(c, Init(), labels);
  }
}
