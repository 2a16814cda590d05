/**
  The broker's view of RDS: the mapping between instance GUIDs and database identifiers, the listing
  of instances, and what it means for the set of workers.
 */
module BrokerInfo {
  import opened Types
  import opened Desired
  import opened Strings

  /** strings.Replace of every underscore by a hyphen */
  function Hyphenate(s: string): (r: string)
    ensures |r| == |s|
    ensures forall i :: 0 <= i < |s| ==> r[i] == if s[i] == '_' then '-' else s[i]
  {
    seq(|s|, i requires 0 <= i < |s| => if s[i] == '_' then '-' else s[i])
  }

  predicate HasUnderscore(s: string) {
    '_' in s
  }

  /** strings.TrimPrefix */
  function TrimPrefix(s: string, prefix: string): string {
    if HasPrefix(s, prefix) then s[|prefix|..] else s
  }

  /** What every identifier of this broker starts with. */
  function IdentifierPrefix(dbPrefix: string): string {
    Hyphenate(dbPrefix) + "-"
  }

  function DbInstanceIdentifier(dbPrefix: string, guid: string): string {
    IdentifierPrefix(dbPrefix) + Hyphenate(guid)
  }

  function ServiceInstanceId(dbPrefix: string, identifier: string): string {
    TrimPrefix(identifier, IdentifierPrefix(dbPrefix))
  }

  /** The character that stands for `c` in an identifier. */
  function Hyphen(c: char): char {
    if c == '_' then '-' else c
  }

  /** An identifier, character by character: the prefix, a hyphen and the GUID, hyphens for underscores. */
  lemma IdentifierSpelled(dbPrefix: string, guid: string)
    ensures var id := DbInstanceIdentifier(dbPrefix, guid);
            && |id| == |dbPrefix| + 1 + |guid|
            && (forall i :: 0 <= i < |dbPrefix| ==> id[i] == Hyphen(dbPrefix[i]))
            && id[|dbPrefix|] == '-'
            && (forall i :: 0 <= i < |guid| ==> id[|dbPrefix| + 1 + i] == Hyphen(guid[i]))
  {
  }

  /** The identifier begins with the prefix, hyphens for underscores, and a hyphen. */
  predicate BeginsWith(dbPrefix: string, identifier: string) {
    && |dbPrefix| < |identifier|
    && (forall i :: 0 <= i < |dbPrefix| ==> identifier[i] == Hyphen(dbPrefix[i]))
    && identifier[|dbPrefix|] == '-'
  }

  /** The GUID of an identifier is what follows that beginning, or else the whole of it. */
  lemma GuidSpelled(dbPrefix: string, identifier: string)
    ensures ServiceInstanceId(dbPrefix, identifier) ==
            if BeginsWith(dbPrefix, identifier) then identifier[|dbPrefix| + 1..] else identifier
  {
    var p := IdentifierPrefix(dbPrefix);
    if BeginsWith(dbPrefix, identifier) {
      assert identifier[..|p|] == p;
    }
  }

  lemma HyphenateIsIdentityIff(s: string)
    ensures Hyphenate(s) == s <==> !HasUnderscore(s)
  {
    if HasUnderscore(s) {
      var i :| 0 <= i < |s| && s[i] == '_';
      assert Hyphenate(s)[i] != s[i];
    }
  }

  /** From GUID to identifier and back is the identity exactly for GUIDs without underscores. */
  lemma GuidRoundTrip(dbPrefix: string, guid: string)
    ensures ServiceInstanceId(dbPrefix, DbInstanceIdentifier(dbPrefix, guid)) == guid <==> !HasUnderscore(guid)
  {
    var p := IdentifierPrefix(dbPrefix);
    assert (p + Hyphenate(guid))[|p|..] == Hyphenate(guid);
    HyphenateIsIdentityIff(guid);
  }

  /** From identifier to GUID and back is the identity exactly with the prefix and no underscore after it. */
  lemma IdentifierRoundTrip(dbPrefix: string, identifier: string)
    ensures var p := IdentifierPrefix(dbPrefix);
            DbInstanceIdentifier(dbPrefix, ServiceInstanceId(dbPrefix, identifier)) == identifier
            <==> HasPrefix(identifier, p) && !HasUnderscore(identifier[|p|..])
  {
    var p := IdentifierPrefix(dbPrefix);
    var guid := ServiceInstanceId(dbPrefix, identifier);
    var back := DbInstanceIdentifier(dbPrefix, guid);
    if HasPrefix(identifier, p) {
      assert identifier == p + guid;
      assert back[|p|..] == Hyphenate(guid);
      HyphenateIsIdentityIff(guid);
    } else {
      assert |back| == |p| + |identifier|;
    }
  }

  /** One identifier is the other with the prefix in front, and the other has no prefix of its own. */
  predicate PrefixedTwin(dbPrefix: string, a: string, b: string) {
    !HasPrefix(a, IdentifierPrefix(dbPrefix)) && b == IdentifierPrefix(dbPrefix) + a
  }

  /** Two identifiers stand for the same GUID. */
  predicate Collide(dbPrefix: string, a: string, b: string) {
    a == b || PrefixedTwin(dbPrefix, a, b) || PrefixedTwin(dbPrefix, b, a)
  }

  /**
    Two identifiers have the same GUID exactly if they are equal, or one of them lacks the prefix and
    the other is that same identifier with the prefix. In particular prefixed identifiers never clash.
   */
  lemma SameGuidExactly(dbPrefix: string, a: string, b: string)
    ensures ServiceInstanceId(dbPrefix, a) == ServiceInstanceId(dbPrefix, b) <==> Collide(dbPrefix, a, b)
  {
    var p := IdentifierPrefix(dbPrefix);
    assert HasPrefix(a, p) ==> a == p + a[|p|..];
    assert HasPrefix(b, p) ==> b == p + b[|p|..];
    assert (p + a)[|p|..] == a && (p + b)[|p|..] == b;
  }

  /** Clashes do occur: every identifier without the prefix has a different one with the same GUID. */
  lemma UnprefixedCollision(dbPrefix: string, guid: string)
    requires !HasPrefix(guid, IdentifierPrefix(dbPrefix))
    ensures guid != IdentifierPrefix(dbPrefix) + guid
    ensures ServiceInstanceId(dbPrefix, guid) == ServiceInstanceId(dbPrefix, IdentifierPrefix(dbPrefix) + guid)
  {
    assert |IdentifierPrefix(dbPrefix) + guid| > |guid|;
    SameGuidExactly(dbPrefix, guid, IdentifierPrefix(dbPrefix) + guid);
  }

  // ---- ListInstances ----

  /** An RDS description; absent strings read as empty. */
  datatype DbDetails = DbDetails(identifier: Option<string>, engine: Option<string>)

  function StringValue(s: Option<string>): string {
    match s
    case None => ""
    case Some(v) => v
  }

  predicate Supported(d: DbDetails) {
    StringValue(d.engine) == "postgres" || StringValue(d.engine) == "mysql"
  }

  function InfoOf(dbPrefix: string, d: DbDetails): InstanceInfo {
    InstanceInfo(ServiceInstanceId(dbPrefix, StringValue(d.identifier)), StringValue(d.engine))
  }

  function InstancesOf(dbPrefix: string, details: seq<DbDetails>): seq<InstanceInfo> {
    if details == [] then [] else
    InstancesOf(dbPrefix, details[..|details| - 1]) +
    if Supported(details[|details| - 1]) then [InfoOf(dbPrefix, details[|details| - 1])] else []
  }

  method ListInstances(dbPrefix: string, described: Option<seq<DbDetails>>) returns (infos: seq<InstanceInfo>, ok: bool)
    ensures ok == described.Some?
    ensures infos == if ok then InstancesOf(dbPrefix, described.value) else []
  {
    infos := [];
    if described.None? {
      return infos, false;
    }
    var details := described.value;
    for i := 0 to |details|
      invariant infos == InstancesOf(dbPrefix, details[..i])
    {
      assert details[..i + 1][..i] == details[..i];
      var engine := StringValue(details[i].engine);
      if engine != "postgres" && engine != "mysql" {
        continue;
      }
      infos := infos + [InstanceInfo(ServiceInstanceId(dbPrefix, StringValue(details[i].identifier)), engine)];
    }
    assert details[..|details|] == details;
    ok := true;
  }

  /** What each described database adds to the list: its GUID and engine if that is one of the two. */
  lemma ListedOneByOne(dbPrefix: string, details: seq<DbDetails>, identifier: Option<string>, engine: Option<string>)
    ensures InstancesOf(dbPrefix, []) == []
    ensures InstancesOf(dbPrefix, details + [DbDetails(identifier, engine)]) ==
            InstancesOf(dbPrefix, details) +
              if engine != Some("postgres") && engine != Some("mysql") then []
              else if identifier.None? then [InstanceInfo(ServiceInstanceId(dbPrefix, ""), engine.value)]
              else [InstanceInfo(ServiceInstanceId(dbPrefix, identifier.value), engine.value)]
  {
    var all := details + [DbDetails(identifier, engine)];
    assert all[..|all| - 1] == details;
  }

  predicate DistinctGuids(infos: seq<InstanceInfo>) {
    forall i, j :: 0 <= i < j < |infos| ==> infos[i].guid != infos[j].guid
  }

  predicate FreshGuid(infos: seq<InstanceInfo>, guid: string) {
    forall k :: 0 <= k < |infos| ==> infos[k].guid != guid
  }

  lemma DistinctSnoc(infos: seq<InstanceInfo>, info: InstanceInfo)
    ensures DistinctGuids(infos + [info]) <==> DistinctGuids(infos) && FreshGuid(infos, info.guid)
  {
    var all := infos + [info];
    assert forall k :: 0 <= k < |infos| ==> all[k] == infos[k];
    assert all[|infos|] == info;
  }

  function Identifier(d: DbDetails): string {
    StringValue(d.identifier)
  }

  /** A database clashes with one of the listed databases; the others do not matter. */
  predicate ClashesWith(dbPrefix: string, details: seq<DbDetails>, d: DbDetails) {
    exists i :: 0 <= i < |details| && Supported(details[i])
                && Collide(dbPrefix, Identifier(details[i]), Identifier(d))
  }

  /** No two listed databases have clashing identifiers. */
  predicate NoClash(dbPrefix: string, details: seq<DbDetails>) {
    forall j :: 0 <= j < |details| && Supported(details[j]) ==> !ClashesWith(dbPrefix, details[..j], details[j])
  }

  lemma NoClashSnoc(dbPrefix: string, init: seq<DbDetails>, last: DbDetails)
    ensures NoClash(dbPrefix, init + [last]) <==>
            NoClash(dbPrefix, init) && (Supported(last) ==> !ClashesWith(dbPrefix, init, last))
  {
    var all := init + [last];
    assert forall j :: 0 <= j < |init| ==> all[j] == init[j] && all[..j] == init[..j];
    assert all[|init|] == last && all[..|init|] == init;
  }

  /** Every listed instance comes from a described database of a supported engine. */
  lemma {:induction false} ListedComesFrom(dbPrefix: string, details: seq<DbDetails>, k: nat)
    requires k < |InstancesOf(dbPrefix, details)|
    ensures exists i :: 0 <= i < |details| && Supported(details[i])
                        && InstancesOf(dbPrefix, details)[k] == InfoOf(dbPrefix, details[i])
  {
    var n := |details| - 1;
    if k < |InstancesOf(dbPrefix, details[..n])| {
      ListedComesFrom(dbPrefix, details[..n], k);
    }
  }

  /** Every described database of a supported engine is listed. */
  lemma {:induction false} SupportedIsListed(dbPrefix: string, details: seq<DbDetails>, i: nat)
    requires i < |details| && Supported(details[i])
    ensures InfoOf(dbPrefix, details[i]) in InstancesOf(dbPrefix, details)
  {
    var n := |details| - 1;
    if i < n {
      SupportedIsListed(dbPrefix, details[..n], i);
    }
  }

  /** The GUID of a further database is new to the listing iff it clashes with no listed one. */
  lemma FreshGuidIff(dbPrefix: string, details: seq<DbDetails>, d: DbDetails)
    ensures FreshGuid(InstancesOf(dbPrefix, details), InfoOf(dbPrefix, d).guid) <==> !ClashesWith(dbPrefix, details, d)
  {
    var infos, guid := InstancesOf(dbPrefix, details), InfoOf(dbPrefix, d).guid;
    if k :| 0 <= k < |infos| && infos[k].guid == guid {
      ListedComesFrom(dbPrefix, details, k);
      var i :| 0 <= i < |details| && Supported(details[i]) && infos[k] == InfoOf(dbPrefix, details[i]);
      SameGuidExactly(dbPrefix, Identifier(details[i]), Identifier(d));
    }
    if ClashesWith(dbPrefix, details, d) {
      var i :| 0 <= i < |details| && Supported(details[i]) && Collide(dbPrefix, Identifier(details[i]), Identifier(d));
      SameGuidExactly(dbPrefix, Identifier(details[i]), Identifier(d));
      SupportedIsListed(dbPrefix, details, i);
    }
  }

  /** The listed GUIDs are distinct, so that no two databases share a worker, iff no listed identifiers clash. */
  lemma {:induction false} ListedGuidsDistinctIff(dbPrefix: string, details: seq<DbDetails>)
    ensures DistinctGuids(InstancesOf(dbPrefix, details)) <==> NoClash(dbPrefix, details)
  {
    if details != [] {
      var init, last := details[..|details| - 1], details[|details| - 1];
      assert details == init + [last];
      ListedGuidsDistinctIff(dbPrefix, init);
      FreshGuidIff(dbPrefix, init, last);
      NoClashSnoc(dbPrefix, init, last);
      DistinctSnoc(InstancesOf(dbPrefix, init), InfoOf(dbPrefix, last));
      assert InstancesOf(dbPrefix, init) + [] == InstancesOf(dbPrefix, init);
    }
  }

  // ---- the workers that main's drivers call for ----

  function SqlDriver(name: string, interval: int): Driver {
    Driver(name, [name], interval)
  }

  function CloudWatchDriver(interval: int): Driver {
    Driver("cloudwatch", ["postgres", "mysql"], interval)
  }

  /** The drivers that main registers. */
  function MainDrivers(sqlInterval: int, cwInterval: int): map<string, Driver> {
    map["postgres" := SqlDriver("postgres", sqlInterval),
        "mysql" := SqlDriver("mysql", sqlInterval),
        "cloudwatch" := CloudWatchDriver(cwInterval)]
  }

  predicate DatabaseKinds(infos: seq<InstanceInfo>) {
    forall i :: 0 <= i < |infos| ==> infos[i].kind == "postgres" || infos[i].kind == "mysql"
  }

  /** The instance calls for exactly a CloudWatch worker and the SQL worker of its engine. */
  ghost predicate CallsForTwo(drivers: map<string, Driver>, info: InstanceInfo) {
    && ForInstance(drivers, info).Keys == {WorkerId("cloudwatch", info.guid), WorkerId(info.kind, info.guid)}
    && |ForInstance(drivers, info).Keys| == 2
  }

  lemma TwoPerInstance(sqlInterval: int, cwInterval: int, info: InstanceInfo)
    requires info.kind == "postgres" || info.kind == "mysql"
    ensures CallsForTwo(MainDrivers(sqlInterval, cwInterval), info)
  {
    assert "cloudwatch"[0] == 'c' && "postgres"[0] == 'p' && "mysql"[0] == 'm';
    var ids := {WorkerId("cloudwatch", info.guid), WorkerId(info.kind, info.guid)};
    assert ForInstance(MainDrivers(sqlInterval, cwInterval), info).Keys == ids;
    assert |ids| == 2;
  }

  lemma NewGuidNewWorkers(drivers: map<string, Driver>, infos: seq<InstanceInfo>, info: InstanceInfo)
    requires FreshGuid(infos, info.guid)
    ensures DesiredWorkers(drivers, infos).Keys !! ForInstance(drivers, info).Keys
  {
    forall id | id in DesiredWorkers(drivers, infos)
      ensures id !in ForInstance(drivers, info)
    {
      DesiredIsLastWanting(drivers, infos, id);
    }
  }

  lemma OldGuidOldWorker(drivers: map<string, Driver>, infos: seq<InstanceInfo>, k: nat)
    requires k < |infos| && CallsForTwo(drivers, infos[k])
    ensures WorkerId("cloudwatch", infos[k].guid) in DesiredWorkers(drivers, infos)
  {
    var id := WorkerId("cloudwatch", infos[k].guid);
    assert id in ForInstance(drivers, infos[k]).Keys;
    DesiredIsLastWanting(drivers, infos, id);
  }

  lemma UnionSize<T>(a: set<T>, b: set<T>)
    ensures |a + b| == |a| + |b| - |a * b|
  {
    assert a + b == a + (b - a);
    assert b == (b - a) + (a * b);
  }

  ghost predicate AllCallForTwo(drivers: map<string, Driver>, infos: seq<InstanceInfo>) {
    forall i :: 0 <= i < |infos| ==> CallsForTwo(drivers, infos[i])
  }

  /** An instance adds its two workers if its GUID is new, and otherwise fewer. */
  lemma OneMoreInstance(drivers: map<string, Driver>, infos: seq<InstanceInfo>, info: InstanceInfo)
    requires AllCallForTwo(drivers, infos) && CallsForTwo(drivers, info)
    ensures var before := DesiredWorkers(drivers, infos);
            var after := before + ForInstance(drivers, info);
            && |after| <= |before| + 2
            && (|after| == |before| + 2 <==> FreshGuid(infos, info.guid))
  {
    var before, added := DesiredWorkers(drivers, infos), ForInstance(drivers, info);
    assert (before + added).Keys == before.Keys + added.Keys;
    UnionSize(before.Keys, added.Keys);
    if FreshGuid(infos, info.guid) {
      NewGuidNewWorkers(drivers, infos, info);
      assert before.Keys * added.Keys == {};
    } else {
      var k :| 0 <= k < |infos| && infos[k].guid == info.guid;
      OldGuidOldWorker(drivers, infos, k);
      assert WorkerId("cloudwatch", info.guid) in before.Keys * added.Keys;
    }
  }

  lemma {:induction false} CountTwice(drivers: map<string, Driver>, infos: seq<InstanceInfo>)
    requires AllCallForTwo(drivers, infos)
    ensures |DesiredWorkers(drivers, infos)| <= 2 * |infos|
    ensures |DesiredWorkers(drivers, infos)| == 2 * |infos| <==> DistinctGuids(infos)
  {
    if infos != [] {
      var init, last := infos[..|infos| - 1], infos[|infos| - 1];
      assert infos == init + [last];
      CountTwice(drivers, init);
      OneMoreInstance(drivers, init, last);
      DistinctSnoc(init, last);
    }
  }

  /** A CloudWatch worker, or the SQL worker of the instance's engine. */
  predicate WorkerFor(info: InstanceInfo, id: WorkerId) {
    id.instanceGuid == info.guid && (id.driver == "cloudwatch" || id.driver == info.kind)
  }

  lemma MainDriversWant(sqlInterval: int, cwInterval: int, info: InstanceInfo, id: WorkerId)
    requires info.kind == "postgres" || info.kind == "mysql"
    ensures Wants(MainDrivers(sqlInterval, cwInterval), info, id) <==> WorkerFor(info, id)
  {
    assert "cloudwatch"[0] == 'c' && "postgres"[0] == 'p' && "mysql"[0] == 'm';
  }

  /**
    With the drivers of main the workers called for are, for each listed instance, a CloudWatch worker
    and the SQL worker of its engine, and no others; n instances call for 2n of them exactly if their
    GUIDs are distinct, and otherwise for fewer.
   */
  lemma TwoWorkersPerInstance(sqlInterval: int, cwInterval: int, infos: seq<InstanceInfo>, id: WorkerId)
    requires DatabaseKinds(infos)
    ensures |DesiredWorkers(MainDrivers(sqlInterval, cwInterval), infos)| <= 2 * |infos|
    ensures |DesiredWorkers(MainDrivers(sqlInterval, cwInterval), infos)| == 2 * |infos| <==> DistinctGuids(infos)
    ensures id in DesiredWorkers(MainDrivers(sqlInterval, cwInterval), infos) <==>
            exists i :: 0 <= i < |infos| && WorkerFor(infos[i], id)
  {
    var drivers := MainDrivers(sqlInterval, cwInterval);
    DesiredIsLastWanting(drivers, infos, id);
    forall i | 0 <= i < |infos|
      ensures CallsForTwo(drivers, infos[i]) && (Wants(drivers, infos[i], id) <==> WorkerFor(infos[i], id))
    {
      TwoPerInstance(sqlInterval, cwInterval, infos[i]);
      MainDriversWant(sqlInterval, cwInterval, infos[i], id);
    }
    CountTwice(drivers, infos);
  }

  lemma {:induction false} ListedKinds(dbPrefix: string, details: seq<DbDetails>)
    ensures DatabaseKinds(InstancesOf(dbPrefix, details))
  {
    if details != [] {
      ListedKinds(dbPrefix, details[..|details| - 1]);
    }
  }

  /** From the RDS descriptions to the workers: two per listed database exactly if no listed identifiers clash. */
  lemma TwoWorkersPerDatabase(sqlInterval: int, cwInterval: int, dbPrefix: string, details: seq<DbDetails>)
    ensures var infos := InstancesOf(dbPrefix, details);
            var n := |DesiredWorkers(MainDrivers(sqlInterval, cwInterval), infos)|;
            n <= 2 * |infos| && (n == 2 * |infos| <==> NoClash(dbPrefix, details))
  {
    ListedGuidsDistinctIff(dbPrefix, details);
    ListedKinds(dbPrefix, details);
    TwoWorkersPerInstance(sqlInterval, cwInterval, InstancesOf(dbPrefix, details), WorkerId("", ""));
  }
}
