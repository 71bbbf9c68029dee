/** Values carried by channels, the copy-on-send strategy, and the outcome of
    a channel operation: a result, one of the errors the endpoints raise, or
    the information that the calling task would be suspended. */
module Values {

  /** The value a task hands to a channel. `supportsCopy` tells whether the
      object implements the `SupportsCopy` protocol (a `copy()` method);
      `generation` counts the copy steps between this object and the one the
      sending task created (0 for that original object). */
  datatype Value = Value(payload: int, supportsCopy: bool, generation: nat)

  /** `value.copy()`: an object equivalent to `v` that is not `v` itself, and
      that supports copying in its turn (the protocol returns `Self`). */
  function Copy(v: Value): (c: Value)
    requires v.supportsCopy
    ensures c.payload == v.payload && c.supportsCopy
    ensures c.generation == v.generation + 1
    ensures c != v
  {
    v.(generation := v.generation + 1)
  }

  /** `n` copy steps applied one after the other: a copy of a copy of ... `v`. */
  function CopyChain(v: Value, n: nat): (c: Value)
    requires v.supportsCopy
    ensures c.payload == v.payload && c.supportsCopy
    ensures c.generation == v.generation + n
    decreases n
  {
    if n == 0 then v else Copy(CopyChain(v, n - 1))
  }

  datatype Option<+T> = None | Some(value: T)

  /** The errors of the channel API. `Closed` and `Disconnected` are the
      library's own exception classes; `ValueError` and `TypeError` are the
      Python built-ins the endpoints raise; `StopIteration` stands for the
      `StopAsyncIteration` that ends an `async for` over a receiver. */
  datatype ChannelError = Closed | Disconnected | ValueError | TypeError | StopIteration

  /** The outcome of one channel operation. `WouldBlock` means that the task
      would be suspended at this point (full or empty buffer, no partner for
      a rendezvous); the scheduler that would later resume it is not part of
      the model. */
  datatype Outcome<+T> = Ok(value: T) | Err(error: ChannelError) | WouldBlock

  /** The copy made at send time in queue and rendezvous mode: with
      `copy_on_send` a value without `copy()` is refused with `TypeError`,
      a copyable one is replaced by its copy; otherwise the value is passed on
      as it is. */
  function PrepareForSend(copyOnSend: bool, v: Value): (r: Outcome<Value>)
    ensures r.Err? <==> copyOnSend && !v.supportsCopy
    ensures r.Err? ==> r.error == TypeError
    ensures r.Ok? ==> r.value.payload == v.payload
    ensures r.Ok? ==> r.value.generation == if copyOnSend then v.generation + 1 else v.generation
    ensures !r.WouldBlock?
  {
    if !copyOnSend then Ok(v)
    else if v.supportsCopy then Ok(Copy(v))
    else Err(TypeError)
  }
}
