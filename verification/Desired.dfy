/** Which workers a list of instances calls for. */
module Desired {
  import opened Types

  predicate Supports(drivers: map<string, Driver>, d: string, kind: string) {
    d in drivers && kind in drivers[d].supportedTypes
  }

  /** Instance `info` calls for worker `id`. */
  predicate Wants(drivers: map<string, Driver>, info: InstanceInfo, id: WorkerId) {
    info.guid == id.instanceGuid && Supports(drivers, id.driver, info.kind)
  }

  /** The workers one instance calls for. */
  function ForInstance(drivers: map<string, Driver>, info: InstanceInfo): map<WorkerId, InstanceInfo> {
    map d | d in drivers && Supports(drivers, d, info.kind) :: WorkerId(d, info.guid) := info
  }

  /** The workers a whole listing calls for; a later instance overrides an earlier one. */
  function DesiredWorkers(drivers: map<string, Driver>, infos: seq<InstanceInfo>): map<WorkerId, InstanceInfo> {
    if infos == [] then map[] else
    DesiredWorkers(drivers, infos[..|infos| - 1]) + ForInstance(drivers, infos[|infos| - 1])
  }

  ghost predicate LastWanting(drivers: map<string, Driver>, infos: seq<InstanceInfo>, id: WorkerId, i: int) {
    && 0 <= i < |infos|
    && Wants(drivers, infos[i], id)
    && forall j :: i < j < |infos| ==> !Wants(drivers, infos[j], id)
  }

  /**
    A worker is desired iff some listed instance has its GUID and a type its driver supports, and it
    is then desired for the last such instance.
   */
  lemma {:induction false} DesiredIsLastWanting(drivers: map<string, Driver>, infos: seq<InstanceInfo>, id: WorkerId)
    ensures id in DesiredWorkers(drivers, infos) <==> exists i :: 0 <= i < |infos| && Wants(drivers, infos[i], id)
    ensures forall i :: LastWanting(drivers, infos, id, i) ==>
              id in DesiredWorkers(drivers, infos) && DesiredWorkers(drivers, infos)[id] == infos[i]
    ensures id in DesiredWorkers(drivers, infos) ==> exists i :: LastWanting(drivers, infos, id, i)
  {
    if infos != [] {
      var init, last := infos[..|infos| - 1], infos[|infos| - 1];
      DesiredIsLastWanting(drivers, init, id);
      assert forall i :: 0 <= i < |init| ==> infos[i] == init[i];
      if Wants(drivers, last, id) {
        assert LastWanting(drivers, infos, id, |infos| - 1);
      } else if id in DesiredWorkers(drivers, init) {
        var i :| LastWanting(drivers, init, id, i);
        assert LastWanting(drivers, infos, id, i);
      }
      forall i | LastWanting(drivers, infos, id, i) && i < |init|
        ensures LastWanting(drivers, init, id, i)
      {}
    }
  }
}
