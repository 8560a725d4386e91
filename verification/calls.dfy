/** Shared vocabulary for the event models: handlers are opaque callables, so
    the models identify each one by an id and describe a dispatch by the
    sequence of calls it performs. */
module Calls {

  /** Identity of a stored callable (a `std::function` in the source). */
  type HandlerId = nat

  /** One invocation of handler `handler` with argument pack `args`. */
  datatype Call<A> = Call(handler: HandlerId, args: A)

  datatype Option<T> = None | Some(value: T)
}
