// What the models of concurrent code share: who holds a lock, and optional values.
module Threads {

  /** The holder of a spin lock taken by producers and a consumer. */
  datatype Owner = Nobody | Producer(id: nat) | Consumer

  datatype Option<T> = None | Some(value: T)
}
