/**
  What a refresh of the instance list does to the set of workers, whatever order the map iterations
  take and whatever the other goroutines do meanwhile, and how refreshes converge.
 */
module Refresh {
  import opened Types
  import opened Desired
  import opened Protocol
  import opened Invariant

  type Wanted = map<WorkerId, InstanceInfo>

  /** Workers keep their identity, and keys that were in the map still refer to the same workers. */
  ghost predicate Kept(s0: State, s: State) {
    && |s0.routines| <= |s.routines|
    && (forall r :: 0 <= r < |s0.routines| ==>
          && s.routines[r].id == s0.routines[r].id
          && s.routines[r].info == s0.routines[r].info
          && s.routines[r].driver == s0.routines[r].driver)
    && (forall id :: id in s0.workers ==> id in s.workers && s.workers[id] == s0.workers[id])
  }

  /** The workers started since `s0` are exactly those of the new keys, for the wanted instances, uncancelled. */
  ghost predicate StartedFor(s0: State, wanted: Wanted, s: State) {
    && (forall id :: id in s.workers && id !in s0.workers ==> |s0.routines| <= s.workers[id] < |s.routines|)
    && (forall r :: |s0.routines| <= r < |s.routines| ==>
          var w := s.routines[r];
          w.id in s.workers && s.workers[w.id] == r && w.id !in s0.workers &&
          w.id in wanted && w.info == wanted[w.id] && !w.cancelled)
  }

  /** Since `s0`, cancel was called on exactly the workers of the keys `hit`. */
  ghost predicate CancelledExactly(s0: State, s: State, hit: set<WorkerId>)
    requires |s0.routines| <= |s.routines|
  {
    forall r :: 0 <= r < |s0.routines| ==>
      var w := s0.routines[r];
      s.routines[r].cancelled == (w.cancelled || (w.id in hit && w.id in s0.workers && s0.workers[w.id] == r))
  }

  /** The specification of a refresh, on sets. */
  ghost predicate Refreshed(s0: State, wanted: Wanted, s: State) {
    && s.workers.Keys == s0.workers.Keys + wanted.Keys
    && Kept(s0, s)
    && StartedFor(s0, wanted, s)
    && CancelledExactly(s0, s, s0.workers.Keys - wanted.Keys)
  }

  /** How far a refresh that began in `s0` has got. */
  ghost predicate Midway(s0: State, wanted: Wanted, s: State) {
    && Kept(s0, s)
    && StartedFor(s0, wanted, s)
    && InRefresh(s.pc) && s.pc.desired == wanted
    && if s.pc.Cancelling? then
         && s.workers.Keys == s0.workers.Keys + wanted.Keys
         && CancelledExactly(s0, s, s0.workers.Keys - wanted.Keys - s.pc.todo)
       else
         && s.pc.todo <= wanted.Keys
         && s.workers.Keys == s0.workers.Keys + (wanted.Keys - s.pc.todo)
         && CancelledExactly(s0, s, {})
  }

  lemma TodoShrinks(wanted: set<WorkerId>, todo: set<WorkerId>, id: WorkerId)
    requires id in wanted
    ensures wanted - (todo - {id}) == (wanted - todo) + {id}
  {
  }

  lemma InsertStaysMidway(c: Config, s0: State, wanted: Wanted, s: State, id: WorkerId)
    requires Midway(s0, wanted, s) && Enabled(c, s, VisitDesired(id)) && id !in s.workers
    ensures Midway(s0, wanted, DoVisitDesired(c, s, id))
  {
    var s' := DoVisitDesired(c, s, id);
    TodoShrinks(wanted.Keys, s.pc.todo, id);
    assert s'.workers.Keys == s.workers.Keys + {id};
    assert forall r :: 0 <= r < |s.routines| ==> s'.routines[r] == s.routines[r];
    assert StartedFor(s0, wanted, s');
  }

  lemma VisitWorkerStaysMidway(c: Config, s0: State, wanted: Wanted, s: State, id: WorkerId)
    requires KeysOk(s0) && Midway(s0, wanted, s) && Enabled(c, s, VisitWorker(id))
    ensures Midway(s0, wanted, DoVisitWorker(s, id))
  {
    var s' := DoVisitWorker(s, id);
    assert id !in wanted ==> id in s0.workers && s.workers[id] == s0.workers[id];
  }

  /** Steps of workers, and of the main loop where they only move a phase or the program counter. */
  lemma OtherStepStaysMidway(c: Config, s0: State, wanted: Wanted, s: State, l: Label)
    requires Midway(s0, wanted, s) && Enabled(c, s, l)
    requires !l.EndRefresh? && !l.VisitWorker? && !l.EndStarts?
    requires l.VisitDesired? ==> l.id in s.workers
    ensures Midway(s0, wanted, Apply(c, s, l))
  {
    var s' := Apply(c, s, l);
    assert s'.workers == s.workers && |s'.routines| == |s.routines|;
    assert forall r :: 0 <= r < |s.routines| ==> s'.routines[r] == s.routines[r].(phase := s'.routines[r].phase);
    if l.VisitDesired? {
      TodoShrinks(wanted.Keys, s.pc.todo, l.id);
    }
  }

  lemma EndStartsStaysMidway(c: Config, s0: State, wanted: Wanted, s: State)
    requires KeysOk(s0) && Midway(s0, wanted, s) && Enabled(c, s, EndStarts)
    ensures Midway(s0, wanted, Apply(c, s, EndStarts))
  {
    var s' := Apply(c, s, EndStarts);
    assert wanted.Keys - s.pc.todo == wanted.Keys;
    assert s0.workers.Keys - wanted.Keys - s'.pc.todo == {};
  }

  lemma StepStaysMidway(c: Config, s0: State, wanted: Wanted, s: State, l: Label)
    requires KeysOk(s0) && Midway(s0, wanted, s) && Enabled(c, s, l) && !l.EndRefresh?
    ensures Midway(s0, wanted, Apply(c, s, l))
  {
    if l.VisitDesired? && l.id !in s.workers {
      InsertStaysMidway(c, s0, wanted, s, l.id);
    } else if l.EndStarts? {
      EndStartsStaysMidway(c, s0, wanted, s);
    } else if l.VisitWorker? {
      VisitWorkerStaysMidway(c, s0, wanted, s, l.id);
    } else {
      OtherStepStaysMidway(c, s0, wanted, s, l);
    }
  }

  lemma {:induction false} MidwayUntilEnd(c: Config, s0: State, wanted: Wanted, s: State, mid: seq<Label>)
    requires KeysOk(s0) && Midway(s0, wanted, s)
    requires EndRefresh !in mid && IsRun(c, s, mid + [EndRefresh])
    ensures Refreshed(s0, wanted, Exec(c, s, mid + [EndRefresh]))
    ensures Exec(c, s, mid + [EndRefresh]).pc.AtSelect?
    decreases |mid|
  {
    if mid == [] {
      assert mid + [EndRefresh] == [EndRefresh];
      RunOne(c, s, EndRefresh);
      assert s0.workers.Keys - wanted.Keys - s.pc.todo == s0.workers.Keys - wanted.Keys;
    } else {
      var l := mid[0];
      assert (mid + [EndRefresh])[1..] == mid[1..] + [EndRefresh];
      StepStaysMidway(c, s0, wanted, s, l);
      MidwayUntilEnd(c, s0, wanted, Apply(c, s, l), mid[1..]);
    }
  }

  function RefreshLabels(infos: seq<InstanceInfo>, mid: seq<Label>): seq<Label> {
    [Listed(infos)] + (mid + [EndRefresh])
  }

  /**
    A refresh refines its set specification under every interleaving: the keys become old + wanted,
    exactly wanted - old are started, each once, and exactly old - wanted are cancelled.
   */
  lemma RefreshRefinesSets(c: Config, s0: State, infos: seq<InstanceInfo>, mid: seq<Label>)
    requires Inv(c, s0) && EndRefresh !in mid && IsRun(c, s0, RefreshLabels(infos, mid))
    ensures var s := Exec(c, s0, RefreshLabels(infos, mid));
            Refreshed(s0, DesiredWorkers(c.drivers, infos), s) && s.pc.AtSelect?
  {
    var wanted := DesiredWorkers(c.drivers, infos);
    var s := Apply(c, s0, Listed(infos));
    assert RefreshLabels(infos, mid)[1..] == mid + [EndRefresh];
    assert wanted.Keys - s.pc.todo == {};
    assert Midway(s0, wanted, s);
    MidwayUntilEnd(c, s0, wanted, s, mid);
  }

  /** The worker of a key works for the instance that the latest listing has for it. */
  ghost predicate HoldsWanted(s: State, wanted: Wanted, id: WorkerId)
    requires KeysOk(s) && id in s.workers && id in wanted
  {
    s.routines[s.workers[id]].info == wanted[id]
  }

  /**
    Keys follow the listing; what a worker was started with need not. After a refresh the worker of a
    wanted key holds the listed instance exactly if the refresh started it or it held that instance
    already. A worker that was there keeps what it has, also where the listing now gives its GUID
    another type.
   */
  lemma HoldsWantedIff(s0: State, wanted: Wanted, s: State, id: WorkerId)
    requires KeysOk(s0) && KeysOk(s) && Refreshed(s0, wanted, s) && id in wanted
    ensures id in s.workers
    ensures HoldsWanted(s, wanted, id) <==> id !in s0.workers || HoldsWanted(s0, wanted, id)
  {
    assert id in s.workers.Keys;
  }

  // ---- between refreshes ----

  /** No worker started, no cancel called, keys only removed. */
  ghost predicate OnlyRemoved(s1: State, s: State) {
    && !InRefresh(s.pc)
    && |s.routines| == |s1.routines|
    && (forall r :: 0 <= r < |s.routines| ==>
          s.routines[r].id == s1.routines[r].id && s.routines[r].cancelled == s1.routines[r].cancelled)
    && (forall id :: id in s.workers ==> id in s1.workers && s.workers[id] == s1.workers[id])
  }

  predicate IsListed(l: Label) {
    l.Listed?
  }

  lemma StepOnlyRemoves(c: Config, s1: State, s: State, l: Label)
    requires OnlyRemoved(s1, s) && Enabled(c, s, l) && !IsListed(l)
    ensures OnlyRemoved(s1, Apply(c, s, l))
  {
  }

  lemma {:induction false} BetweenRefreshes(c: Config, s1: State, s: State, labels: seq<Label>)
    requires OnlyRemoved(s1, s) && IsRun(c, s, labels)
    requires forall i :: 0 <= i < |labels| ==> !IsListed(labels[i])
    ensures OnlyRemoved(s1, Exec(c, s, labels))
    decreases |labels|
  {
    if labels != [] {
      assert !IsListed(labels[0]);
      StepOnlyRemoves(c, s1, s, labels[0]);
      BetweenRefreshes(c, s1, Apply(c, s, labels[0]), labels[1..]);
    }
  }

  ghost predicate NoKeyCancelled(s: State)
    requires KeysOk(s)
  {
    forall id :: id in s.workers ==> !s.routines[s.workers[id]].cancelled
  }

  /**
    After a refresh, once the cancelled workers are gone from the map, every key is wanted; a second
    refresh that wants the same then leaves exactly the wanted keys and no cancelled worker, also for
    workers that were cancelled earlier and are wanted again.
   */
  lemma RefreshesConverge(c: Config, s0: State, infos: seq<InstanceInfo>, mid: seq<Label>,
                          between: seq<Label>, infos': seq<InstanceInfo>, mid': seq<Label>)
    requires Inv(c, s0) && EndRefresh !in mid && EndRefresh !in mid'
    requires IsRun(c, s0, RefreshLabels(infos, mid))
    requires forall i :: 0 <= i < |between| ==> !IsListed(between[i])
    requires IsRun(c, Exec(c, s0, RefreshLabels(infos, mid)), between)
    requires var s2 := Exec(c, Exec(c, s0, RefreshLabels(infos, mid)), between);
             && KeysOk(s2) && NoKeyCancelled(s2)
             && IsRun(c, s2, RefreshLabels(infos', mid'))
    requires DesiredWorkers(c.drivers, infos') == DesiredWorkers(c.drivers, infos)
    ensures var s2 := Exec(c, Exec(c, s0, RefreshLabels(infos, mid)), between);
            var s3 := Exec(c, s2, RefreshLabels(infos', mid'));
            && s2.workers.Keys <= DesiredWorkers(c.drivers, infos).Keys
            && s3.workers.Keys == DesiredWorkers(c.drivers, infos).Keys
            && KeysOk(s3) && NoKeyCancelled(s3)
  {
    var wanted := DesiredWorkers(c.drivers, infos);
    var s1 := Exec(c, s0, RefreshLabels(infos, mid));
    RefreshRefinesSets(c, s0, infos, mid);
    RunKeepsInv(c, s0, RefreshLabels(infos, mid));
    BetweenRefreshes(c, s1, s1, between);
    RunKeepsInv(c, s1, between);
    var s2 := Exec(c, s1, between);
    SurvivorsAreWanted(s0, wanted, s1, s2);
    RefreshRefinesSets(c, s2, infos', mid');
    RunKeepsInv(c, s2, RefreshLabels(infos', mid'));
    NothingToCancel(s2, wanted, Exec(c, s2, RefreshLabels(infos', mid')));
  }

  lemma SurvivorsAreWanted(s0: State, wanted: Wanted, s1: State, s2: State)
    requires KeysOk(s0) && KeysOk(s1) && KeysOk(s2)
    requires Refreshed(s0, wanted, s1) && OnlyRemoved(s1, s2) && NoKeyCancelled(s2)
    ensures s2.workers.Keys <= wanted.Keys
  {
    forall id | id in s2.workers
      ensures id in wanted
    {
      assert !s2.routines[s2.workers[id]].cancelled;
      assert !s1.routines[s1.workers[id]].cancelled;
      assert id in s0.workers ==> s0.routines[s0.workers[id]].id == id;
    }
  }

  lemma NothingToCancel(s2: State, wanted: Wanted, s3: State)
    requires KeysOk(s2) && KeysOk(s3) && NoKeyCancelled(s2)
    requires Refreshed(s2, wanted, s3) && s2.workers.Keys <= wanted.Keys
    ensures s3.workers.Keys == wanted.Keys && NoKeyCancelled(s3)
  {
    assert s2.workers.Keys - wanted.Keys == {};
    forall id | id in s3.workers
      ensures !s3.routines[s3.workers[id]].cancelled
    {
      assert id in s2.workers ==> !s2.routines[s2.workers[id]].cancelled;
    }
  }
}
