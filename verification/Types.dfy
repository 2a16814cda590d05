/** The values that pass between the broker, the scheduler, the collectors and the emitter. */
module Types {

  datatype Option<+T> = None | Some(value: T)

  /** Signed 64-bit integers are below this. */
  const INT64_LIMIT := 0x8000_0000_0000_0000

  /** A service instance as the broker lists it; `kind` is the database engine. */
  datatype InstanceInfo = InstanceInfo(guid: string, kind: string)

  /** One worker per registered driver and service instance. */
  datatype WorkerId = WorkerId(driver: string, instanceGuid: string)

  datatype Metric = Metric(key: string, timestamp: int, value: real, unit: string, tags: map<string, string>)

  datatype Envelope = Envelope(instanceGuid: string, metric: Metric)

  /** What the scheduler asks of a collector driver, apart from creating collectors. */
  datatype Driver = Driver(name: string, supportedTypes: seq<string>, collectInterval: int)
}
