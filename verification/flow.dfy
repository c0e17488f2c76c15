/** The flow record of the multi-flow scheduler (MFS.c) and the constants it
    is built around.

    Arrival and transmission times are kept as integer tenths of a second,
    the unit in which the input file supplies them; the source divides them
    by 10.0 into `float` seconds, which this model does not do. */
module Flows {

  /** Capacity of the flow table and of the wait queue. */
  const MAXFLOW: int := 100

  const INT32_MIN: int := -0x8000_0000
  const INT32_MAX: int := 0x7FFF_FFFF

  /** One flow: identity, arrival offset and transmission time in tenths of
      a second, and its priority class (lower value goes first). */
  datatype Flow = Flow(id: int, arrivalTime: int, transTime: int, priority: int)

  datatype Option<T> = None | Some(value: T)

  predicate InInt32(x: int) {
    INT32_MIN <= x <= INT32_MAX
  }

  /** The fields the input parser can produce: every field is the result of
      a C `atoi`, so it is a 32-bit signed integer. */
  predicate ParsedFlow(f: Flow) {
    InInt32(f.id) && InInt32(f.arrivalTime) && InInt32(f.transTime) && InInt32(f.priority)
  }
}
