/**
  What RefreshesConverge takes for granted can happen: from wherever the main loop is at its select,
  the cancelled workers can leave the map without a timer or a listing, whatever the drivers' calls
  return. And a worker can hold an outdated instance.
 */
module Convergence {
  import opened Types
  import opened Desired
  import opened Protocol
  import opened Invariant
  import opened Drain
  import opened Refresh

  /** At the select, or deleting a worker on the way back to it. */
  predicate AtRest(pc: Pc) {
    pc.AtSelect? || (Deleting(pc) && !pc.draining)
  }

  ghost predicate Settled(s: State) {
    s.pc.AtSelect? && KeysOk(s) && NoKeyCancelled(s)
  }

  /** Steps that need no timer and no listing. */
  predicate Unforced(o: Answers, l: Label) {
    !IsListed(l) && Prompt(o, l)
  }

  predicate AllUnforced(o: Answers, labels: seq<Label>) {
    forall i :: 0 <= i < |labels| ==> Unforced(o, labels[i])
  }

  /** A step towards the end of the cancelled workers: finish a deletion, receive a report, or let one move on. */
  lemma SettleStep(c: Config, o: Answers, s: State) returns (l: Label)
    requires Inv(c, s) && AtRest(s.pc) && !Settled(s)
    ensures Enabled(c, s, l) && Unforced(o, l) && (l.Work? || IsDeleteLabel(l))
  {
    if s.pc.Received? {
      l := Done;
    } else if s.pc.Counted? {
      l := Delete;
    } else if s.channel != [] {
      l := Receive;
    } else {
      var id :| id in s.workers && s.routines[s.workers[id]].cancelled;
      assert !ExitedKey(s, id);
      WorkerMovesOn(c, o, s, s.workers[id]);
      l := Work(s.workers[id], WayOut(o, s.workers[id], s.routines[s.workers[id]]));
    }
  }

  lemma SettleStepDescends(c: Config, o: Answers, s: State, l: Label)
    requires AtRest(s.pc) && Enabled(c, s, l) && Prompt(o, l) && (l.Work? || IsDeleteLabel(l))
    ensures AtRest(Apply(c, s, l).pc) && Outstanding(o, Apply(c, s, l)) < Outstanding(o, s)
  {
    if l.Work? {
      PromptWorkDescends(c, o, s, l.r, l.event);
    }
  }

  /**
    Whatever the drivers' calls return: from the select, within a bounded number of unforced steps, no
    key's worker is cancelled any more.
   */
  lemma {:induction false} CancelledCanLeave(c: Config, o: Answers, s: State) returns (labels: seq<Label>)
    requires Inv(c, s) && AtRest(s.pc)
    ensures IsRun(c, s, labels) && Settled(Exec(c, s, labels))
    ensures AllUnforced(o, labels) && |labels| <= Outstanding(o, s)
    decreases Outstanding(o, s)
  {
    if Settled(s) {
      labels := [];
    } else {
      var l := SettleStep(c, o, s);
      SettleStepDescends(c, o, s, l);
      StepKeepsInv(c, s, l);
      labels := CancelledCanLeave(c, o, Apply(c, s, l));
      assert ([l] + labels)[1..] == labels;
      labels := [l] + labels;
    }
  }

  /** From `s`, every refresh that wants `wanted` leaves exactly those keys, none of them cancelled. */
  ghost predicate ConvergesTo(c: Config, s: State, wanted: Wanted) {
    forall infos, mid ::
      EndRefresh !in mid && IsRun(c, s, RefreshLabels(infos, mid)) && DesiredWorkers(c.drivers, infos) == wanted ==>
        LandsOn(c, s, infos, mid, wanted)
  }

  ghost predicate LandsOn(c: Config, s: State, infos: seq<InstanceInfo>, mid: seq<Label>, wanted: Wanted)
    requires IsRun(c, s, RefreshLabels(infos, mid))
  {
    var s' := Exec(c, s, RefreshLabels(infos, mid));
    s'.workers.Keys == wanted.Keys && Settled(s')
  }

  lemma SettledConverges(c: Config, s: State, infos: seq<InstanceInfo>, mid: seq<Label>)
    requires Inv(c, s) && Settled(s) && s.workers.Keys <= DesiredWorkers(c.drivers, infos).Keys
    requires EndRefresh !in mid && IsRun(c, s, RefreshLabels(infos, mid))
    ensures LandsOn(c, s, infos, mid, DesiredWorkers(c.drivers, infos))
  {
    RefreshRefinesSets(c, s, infos, mid);
    RunKeepsInv(c, s, RefreshLabels(infos, mid));
    NothingToCancel(s, DesiredWorkers(c.drivers, infos), Exec(c, s, RefreshLabels(infos, mid)));
  }

  /** The way out of a refresh, to a state in which every key is wanted. */
  lemma SettlesOnWanted(c: Config, o: Answers, s0: State, infos: seq<InstanceInfo>, mid: seq<Label>)
    returns (between: seq<Label>)
    requires Inv(c, s0) && EndRefresh !in mid && IsRun(c, s0, RefreshLabels(infos, mid))
    ensures var s1 := Exec(c, s0, RefreshLabels(infos, mid));
            && IsRun(c, s1, between) && Inv(c, Exec(c, s1, between)) && Settled(Exec(c, s1, between))
            && Exec(c, s1, between).workers.Keys <= DesiredWorkers(c.drivers, infos).Keys
    ensures AllUnforced(o, between)
  {
    var s1 := Exec(c, s0, RefreshLabels(infos, mid));
    RefreshRefinesSets(c, s0, infos, mid);
    RunKeepsInv(c, s0, RefreshLabels(infos, mid));
    between := CancelledCanLeave(c, o, s1);
    RunKeepsInv(c, s1, between);
    forall i | 0 <= i < |between| ensures !IsListed(between[i]) {
      assert Unforced(o, between[i]);
    }
    BetweenRefreshes(c, s1, s1, between);
    SurvivorsAreWanted(s0, DesiredWorkers(c.drivers, infos), s1, Exec(c, s1, between));
  }

  /**
    Whatever the drivers' calls return: after every refresh there is a run, without timer or listing,
    to a state in which every key is wanted and from which every further refresh that wants the same
    leaves exactly the wanted keys, none of them cancelled.
   */
  lemma ConvergenceIsReachable(c: Config, o: Answers, s0: State, infos: seq<InstanceInfo>, mid: seq<Label>)
    returns (between: seq<Label>)
    requires Inv(c, s0) && EndRefresh !in mid && IsRun(c, s0, RefreshLabels(infos, mid))
    ensures var s1 := Exec(c, s0, RefreshLabels(infos, mid));
            && IsRun(c, s1, between) && Settled(Exec(c, s1, between))
            && Exec(c, s1, between).workers.Keys <= DesiredWorkers(c.drivers, infos).Keys
            && ConvergesTo(c, Exec(c, s1, between), DesiredWorkers(c.drivers, infos))
    ensures AllUnforced(o, between)
  {
    between := SettlesOnWanted(c, o, s0, infos, mid);
    var s2 := Exec(c, Exec(c, s0, RefreshLabels(infos, mid)), between);
    var wanted := DesiredWorkers(c.drivers, infos);
    forall infos', mid' |
      EndRefresh !in mid' && IsRun(c, s2, RefreshLabels(infos', mid')) && DesiredWorkers(c.drivers, infos') == wanted
      ensures LandsOn(c, s2, infos', mid', wanted)
    {
      SettledConverges(c, s2, infos', mid');
    }
  }

  // ---- an outdated instance ----

  /** The step the main loop takes next in a refresh. */
  ghost function RefreshStep(s: State): Label
    requires InRefresh(s.pc)
  {
    match s.pc
    case Starting(_, todo) => if todo == {} then EndStarts else var id :| id in todo; VisitDesired(id)
    case Inserted(_, _, _) => Add
    case Added(_, _, _) => Go
    case Cancelling(_, todo) => if todo == {} then EndRefresh else var id :| id in todo; VisitWorker(id)
  }

  function RefreshRank(pc: Pc): nat {
    match pc
    case Starting(_, todo) => 3 * |todo|
    case Inserted(_, todo, _) => 3 * |todo| + 2
    case Added(_, todo, _) => 3 * |todo| + 1
    case Cancelling(_, todo) => |todo|
    case _ => 0
  }

  lemma RefreshStepEnabled(c: Config, s: State)
    requires Inv(c, s) && InRefresh(s.pc)
    ensures Enabled(c, s, RefreshStep(s)) && !IsOther(RefreshStep(s))
  {
  }

  lemma RefreshStepDescends(c: Config, s: State, l: Label)
    requires InRefresh(s.pc) && Enabled(c, s, l) && !IsOther(l) && !l.EndRefresh?
    ensures var pc := Apply(c, s, l).pc;
            && InRefresh(pc)
            && (s.pc.Cancelling? ==> pc.Cancelling?)
            && (pc.Cancelling? == s.pc.Cancelling? ==> RefreshRank(pc) < RefreshRank(s.pc))
  {
  }

  lemma Cons(c: Config, s: State, l: Label, mid: seq<Label>)
    requires l != EndRefresh && EndRefresh !in mid
    requires Enabled(c, s, l) && IsRun(c, Apply(c, s, l), mid + [EndRefresh])
    ensures EndRefresh !in [l] + mid && IsRun(c, s, [l] + mid + [EndRefresh])
  {
    assert ([l] + mid + [EndRefresh])[1..] == mid + [EndRefresh];
  }

  /** The main loop can always complete a refresh by itself. */
  lemma {:induction false} RefreshCanComplete(c: Config, s: State) returns (mid: seq<Label>)
    requires Inv(c, s) && InRefresh(s.pc)
    ensures EndRefresh !in mid && IsRun(c, s, mid + [EndRefresh])
    decreases !s.pc.Cancelling?, RefreshRank(s.pc)
  {
    var l := RefreshStep(s);
    RefreshStepEnabled(c, s);
    if l.EndRefresh? {
      mid := [];
      assert mid + [EndRefresh] == [EndRefresh];
      RunOne(c, s, EndRefresh);
    } else {
      RefreshStepDescends(c, s, l);
      StepKeepsInv(c, s, l);
      mid := RefreshCanComplete(c, Apply(c, s, l));
      Cons(c, s, l, mid);
      mid := [l] + mid;
    }
  }

  lemma RefreshIsPossible(c: Config, s: State, infos: seq<InstanceInfo>) returns (mid: seq<Label>)
    requires Inv(c, s) && s.pc.AtSelect?
    ensures EndRefresh !in mid && IsRun(c, s, RefreshLabels(infos, mid))
  {
    StepKeepsInv(c, s, Listed(infos));
    mid := RefreshCanComplete(c, Apply(c, s, Listed(infos)));
    assert RefreshLabels(infos, mid)[1..] == mid + [EndRefresh];
  }

  /**
    A worker keeps the instance it was started with: if one refresh starts the worker `id` and the
    next wants it with another instance, then it holds the outdated one, under every interleaving.
   */
  lemma KeepsFirstInstance(c: Config, s: State, infos: seq<InstanceInfo>, mid: seq<Label>,
                           infos': seq<InstanceInfo>, mid': seq<Label>, id: WorkerId)
    requires var wanted, wanted' := DesiredWorkers(c.drivers, infos), DesiredWorkers(c.drivers, infos');
             id in wanted && id in wanted' && wanted[id] != wanted'[id]
    requires Inv(c, s) && id !in s.workers && EndRefresh !in mid && EndRefresh !in mid'
    requires IsRun(c, s, RefreshLabels(infos, mid))
    requires IsRun(c, Exec(c, s, RefreshLabels(infos, mid)), RefreshLabels(infos', mid'))
    ensures var s2 := Exec(c, Exec(c, s, RefreshLabels(infos, mid)), RefreshLabels(infos', mid'));
            KeysOk(s2) && id in s2.workers && !HoldsWanted(s2, DesiredWorkers(c.drivers, infos'), id)
  {
    var wanted, wanted' := DesiredWorkers(c.drivers, infos), DesiredWorkers(c.drivers, infos');
    var s1 := Exec(c, s, RefreshLabels(infos, mid));
    RunKeepsInv(c, s, RefreshLabels(infos, mid));
    RefreshRefinesSets(c, s, infos, mid);
    HoldsWantedIff(s, wanted, s1, id);
    RunKeepsInv(c, s1, RefreshLabels(infos', mid'));
    RefreshRefinesSets(c, s1, infos', mid');
    HoldsWantedIff(s1, wanted', Exec(c, s1, RefreshLabels(infos', mid')), id);
  }

  /** Whenever two listings want the same worker with different instances, this can happen. */
  lemma InstanceCanBeOutdated(c: Config, s: State, infos: seq<InstanceInfo>, infos': seq<InstanceInfo>, id: WorkerId)
    returns (mid: seq<Label>, mid': seq<Label>)
    requires var wanted, wanted' := DesiredWorkers(c.drivers, infos), DesiredWorkers(c.drivers, infos');
             id in wanted && id in wanted' && wanted[id] != wanted'[id]
    requires Inv(c, s) && s.pc.AtSelect? && id !in s.workers
    ensures IsRun(c, s, RefreshLabels(infos, mid))
    ensures IsRun(c, Exec(c, s, RefreshLabels(infos, mid)), RefreshLabels(infos', mid'))
    ensures var s2 := Exec(c, Exec(c, s, RefreshLabels(infos, mid)), RefreshLabels(infos', mid'));
            KeysOk(s2) && id in s2.workers && !HoldsWanted(s2, DesiredWorkers(c.drivers, infos'), id)
  {
    mid := RefreshIsPossible(c, s, infos);
    var s1 := Exec(c, s, RefreshLabels(infos, mid));
    RunKeepsInv(c, s, RefreshLabels(infos, mid));
    RefreshRefinesSets(c, s, infos, mid);
    mid' := RefreshIsPossible(c, s1, infos');
    KeepsFirstInstance(c, s, infos, mid, infos', mid', id);
  }
}
