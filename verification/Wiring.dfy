/** How main puts the parts together, and what follows for the whole program. */
module Wiring {
  import opened Types
  import opened Desired
  import opened Protocol
  import opened Invariant
  import opened Refresh
  import opened Convergence
  import Broker = BrokerInfo
  import Scheduling = SchedulerProcess
  import Settings = ConnectionSettings
  import Strings
  import Timeouts = TimeoutConn

  /** Registering its three drivers one by one gives main the registry that the broker lemmas speak of. */
  lemma MainRegisters(sqlInterval: int, cwInterval: int)
    ensures Scheduling.Registered(map[], [Driver("postgres", ["postgres"], sqlInterval),
                                          Driver("mysql", ["mysql"], sqlInterval),
                                          Driver("cloudwatch", ["postgres", "mysql"], cwInterval)])
            == Broker.MainDrivers(sqlInterval, cwInterval)
  {
    var a, b := Broker.SqlDriver("postgres", sqlInterval), Broker.SqlDriver("mysql", sqlInterval);
    var d := Broker.CloudWatchDriver(cwInterval);
    assert [a][..0] == [] && Scheduling.Registered(map[], [a]) == map["postgres" := a];
    assert [a, b][..1] == [a] && Scheduling.Registered(map[], [a, b]) == map["postgres" := a, "mysql" := b];
    assert [a, b, d][..2] == [a, b];
  }

  lemma FirstRefreshCounts(c: Config, s0: State, infos: seq<InstanceInfo>, mid: seq<Label>)
    requires Inv(c, s0) && s0.workers == map[]
    requires EndRefresh !in mid && IsRun(c, s0, RefreshLabels(infos, mid))
    ensures var s := Exec(c, s0, RefreshLabels(infos, mid));
            s.waitGroup == |s.workers| == |DesiredWorkers(c.drivers, infos)|
  {
    var s := Exec(c, s0, RefreshLabels(infos, mid));
    var wanted := DesiredWorkers(c.drivers, infos);
    RefreshRefinesSets(c, s0, infos, mid);
    RunKeepsInv(c, s0, RefreshLabels(infos, mid));
    assert s.workers.Keys == wanted.Keys;
    assert |s.workers| == |s.workers.Keys| && |wanted| == |wanted.Keys|;
  }

  /**
    A first refresh, under any interleaving, leaves two workers for every supported database of the
    broker exactly if no two of these databases are listed under one GUID; the WaitGroup counts the
    workers in any case.
   */
  lemma FirstRefreshStartsTwoEach(sqlInterval: int, cwInterval: int, c: Config, s0: State,
                                  dbPrefix: string, details: seq<Broker.DbDetails>, mid: seq<Label>)
    requires c.drivers == Broker.MainDrivers(sqlInterval, cwInterval) && Inv(c, s0) && s0.workers == map[]
    requires EndRefresh !in mid && IsRun(c, s0, RefreshLabels(Broker.InstancesOf(dbPrefix, details), mid))
    ensures var infos := Broker.InstancesOf(dbPrefix, details);
            var s := Exec(c, s0, RefreshLabels(infos, mid));
            && s.waitGroup == |s.workers| <= 2 * |infos|
            && (|s.workers| == 2 * |infos| <==> Broker.NoClash(dbPrefix, details))
  {
    FirstRefreshCounts(c, s0, Broker.InstancesOf(dbPrefix, details), mid);
    Broker.TwoWorkersPerDatabase(sqlInterval, cwInterval, dbPrefix, details);
  }

  /** The CloudWatch worker of a database is wanted whatever the engine, with the instance as listed. */
  lemma CloudWatchWanted(sqlInterval: int, cwInterval: int, info: InstanceInfo)
    requires info.kind == "postgres" || info.kind == "mysql"
    ensures var wanted := DesiredWorkers(Broker.MainDrivers(sqlInterval, cwInterval), [info]);
            var id := WorkerId("cloudwatch", info.guid);
            id in wanted && wanted[id] == info
  {
    var drivers, id := Broker.MainDrivers(sqlInterval, cwInterval), WorkerId("cloudwatch", info.guid);
    Broker.MainDriversWant(sqlInterval, cwInterval, info, id);
    DesiredIsLastWanting(drivers, [info], id);
    assert LastWanting(drivers, [info], id, 0);
  }

  lemma DifferentEngines(info: InstanceInfo, info': InstanceInfo)
    requires {info.kind, info'.kind} == {"postgres", "mysql"}
    ensures info != info'
    ensures info.kind == "postgres" || info.kind == "mysql"
    ensures info'.kind == "postgres" || info'.kind == "mysql"
  {
    assert "postgres"[0] == 'p' && "mysql"[0] == 'm';
    assert info.kind in {info.kind, info'.kind} && info'.kind in {info.kind, info'.kind};
    assert "postgres" in {info.kind, info'.kind} && "mysql" in {info.kind, info'.kind};
  }

  /**
    With main's drivers a database that is listed under another engine keeps its CloudWatch worker,
    which goes on with the instance of the first listing.
   */
  lemma EngineChangeIsMissed(sqlInterval: int, cwInterval: int, c: Config, s: State, info: InstanceInfo,
                             info': InstanceInfo) returns (mid: seq<Label>, mid': seq<Label>)
    requires c.drivers == Broker.MainDrivers(sqlInterval, cwInterval) && Inv(c, s) && s.pc.AtSelect?
    requires info.guid == info'.guid && {info.kind, info'.kind} == {"postgres", "mysql"}
    requires WorkerId("cloudwatch", info.guid) !in s.workers
    ensures IsRun(c, s, RefreshLabels([info], mid))
    ensures IsRun(c, Exec(c, s, RefreshLabels([info], mid)), RefreshLabels([info'], mid'))
    ensures var s2 := Exec(c, Exec(c, s, RefreshLabels([info], mid)), RefreshLabels([info'], mid'));
            var id := WorkerId("cloudwatch", info.guid);
            && KeysOk(s2) && id in s2.workers && id in DesiredWorkers(c.drivers, [info'])
            && !HoldsWanted(s2, DesiredWorkers(c.drivers, [info']), id)
  {
    DifferentEngines(info, info');
    CloudWatchWanted(sqlInterval, cwInterval, info);
    CloudWatchWanted(sqlInterval, cwInterval, info');
    mid, mid' := InstanceCanBeOutdated(c, s, [info], [info'], WorkerId("cloudwatch", info.guid));
  }

  /** What the dialer that Open passes to lib/pq makes of a connection that the network dialled. */
  function Connect(o: Settings.Opened, dialled: Timeouts.Dialled): Timeouts.DialResult
    requires o.Dial?
  {
    Timeouts.Dial(Timeouts.Timeouts(o.readTimeout, o.writeTimeout), dialled)
  }

  /** The connection string has these settings, all of them readable. */
  predicate Reads(parseUrl: string -> Option<string>, connection: string, text: string,
                  settings: seq<Settings.Setting>) {
    && Settings.StandsFor(parseUrl, connection, text)
    && settings == Settings.Classified(Strings.Fields(text))
    && Settings.AllReadable(settings)
  }

  predicate Good(dialled: Timeouts.Dialled) {
    dialled.ok && dialled.conn.Some?
  }

  /**
    The driver behaves as lib/pq alone, handing on what the network dialled, exactly if neither
    timeout is set or the last setting of each is zero, or if there is no connection to wrap.
   */
  lemma UnwrappedIff(parseUrl: string -> Option<string>, connection: string, text: string,
                     settings: seq<Settings.Setting>, dialled: Timeouts.Dialled)
    requires Reads(parseUrl, connection, text, settings)
    ensures var r := Settings.OpenSpec(parseUrl, connection);
            && r.Dial? && r.connection == Strings.Join(Settings.Filter(settings))
            && (Connect(r, dialled) == Timeouts.AsDialled(dialled) <==>
                !Good(dialled) || (Settings.NoTimeout(settings, true) && Settings.NoTimeout(settings, false)))
  {
    Settings.OpenMeaning(parseUrl, connection, text);
    var r := Settings.OpenSpec(parseUrl, connection);
    Settings.TimeoutIsZeroIff(settings, true, r.readTimeout);
    Settings.TimeoutIsZeroIff(settings, false, r.writeTimeout);
  }

  /** Without any timeout setting, all tokens are passed on and the connection is handed on as it is. */
  lemma NoTimeoutsNoWrapper(parseUrl: string -> Option<string>, connection: string, text: string,
                            tokens: seq<string>, dialled: Timeouts.Dialled)
    requires Settings.StandsFor(parseUrl, connection, text) && tokens == Strings.Fields(text)
    requires forall i :: 0 <= i < |tokens| ==> Settings.Classify(tokens[i]).Other?
    ensures var r := Settings.OpenSpec(parseUrl, connection);
            && r == Settings.Dial(Strings.Join(tokens), 0, 0)
            && Connect(r, dialled) == Timeouts.AsDialled(dialled)
  {
    Settings.OthersAreAllKept(Settings.Classified(tokens), tokens);
  }

  function Direction(read: bool): Timeouts.Dir {
    if read then Timeouts.Reading else Timeouts.Writing
  }

  /** The last setting of the timeout is the given number of milliseconds. */
  ghost predicate LastWritten(settings: seq<Settings.Setting>, read: bool, millis: nat, quoted: bool) {
    var name := if read then "read_timeout=" else "write_timeout=";
    exists k :: Settings.LastNaming(settings, read, k) && settings[k].text == name + Settings.Written(millis, quoted)
  }

  lemma DurationAsWritten(parseUrl: string -> Option<string>, connection: string, text: string,
                          settings: seq<Settings.Setting>, read: bool, millis: nat, quoted: bool)
    requires Reads(parseUrl, connection, text, settings) && LastWritten(settings, read, millis, quoted)
    requires millis * 1_000_000 < INT64_LIMIT
    ensures var r := Settings.OpenSpec(parseUrl, connection);
            r.Dial? && (if read then r.readTimeout else r.writeTimeout) == millis * 1_000_000
  {
    Settings.OpenMeaning(parseUrl, connection, text);
    Settings.TimeoutAsWritten(read, millis, quoted);
  }

  /**
    From the connection string to the wire: if the last setting of a timeout is a positive number of
    milliseconds, in a URL of either scheme or in a plain connection string, then every good connection
    is wrapped, and over every sequence of requests each transfer in that direction is timed by exactly
    that many milliseconds.
   */
  lemma TimeoutReachesEveryTransfer(parseUrl: string -> Option<string>, connection: string,
                                    text: string, settings: seq<Settings.Setting>, read: bool,
                                    millis: nat, quoted: bool, dialled: Timeouts.Dialled,
                                    requests: seq<Timeouts.Request>, i: int)
    requires Reads(parseUrl, connection, text, settings) && LastWritten(settings, read, millis, quoted)
    requires 0 < millis * 1_000_000 < INT64_LIMIT && Good(dialled)
    ensures Settings.OpenSpec(parseUrl, connection).Dial?
    ensures var w := Connect(Settings.OpenSpec(parseUrl, connection), dialled);
            && w.Wrapped? && dialled.conn == Some(w.conn)
            && var calls := Timeouts.AllCalls(w.timeouts, requests);
               Timeouts.TransferAt(calls, Direction(read), i) ==>
                 Timeouts.Timed(calls, Direction(read), i, millis * 1_000_000)
  {
    DurationAsWritten(parseUrl, connection, text, settings, read, millis, quoted);
    var w := Connect(Settings.OpenSpec(parseUrl, connection), dialled);
    assert w.timeouts.For(Direction(read)) == millis * 1_000_000;
    if Timeouts.TransferAt(Timeouts.AllCalls(w.timeouts, requests), Direction(read), i) {
      Timeouts.EveryTransferIsTimed(w.timeouts, requests, Direction(read), i);
    }
  }
}
