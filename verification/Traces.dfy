/** Traces: sequences that grow at their end, for callbacks, steps, events and critical sections alike. */
module Traces {
  datatype Trace<T> = Empty | Then(before: Trace<T>, last: T)
}
