# queue-unique in Dafny

A model of `UniqueQueue`, a deduplicating FIFO relay written in Go. Items
that arrive on the `In` channel pass through an internal buffer, the
*feeder*, to the `Out` channel. An item whose key is already pending is
dropped silently. A key is pending when an item carrying it has been
buffered but not yet forwarded. The caller's `MatcherID` function computes
the keys. A key can be admitted again as soon as its item leaves the
buffer.

The project has four modules:

- `DedupIndex` (`dedup_index.dfy`) defines the keys of a buffer and its
  invariant. The pending-key set equals the set of keys of the buffered
  items, and those keys are pairwise distinct. It follows that the set and
  the buffer always have the same size.
- `RelaySpec` (`relay_spec.dfy`) describes the relay as values:
  - `Buffer` holds the pending keys, the feeder with its capacity, the
    feeder's closed state and the `feederOk` flag;
  - `Chan` is the output channel, with its contents and capacity;
  - `GetID` and `Preflight` model the two checks;
  - `Push` and `Pop` model `pushUnique` and `popTo`;
  - `Iterate` is one iteration of the dispatch loop;
  - `Loop` runs the dispatch loop over a script of receives.

  The lemmas in this module state what the source promises about these
  functions.
- `Queue` (`unique_queue.dfy`) defines the class `UniqueQueue`. Its fields
  are updated in place, as in the Go struct. `Valid()` is the class
  invariant. The postconditions of `Run`, `PushUnique`, `PopTo`, `Step` and
  `Fifo` tie the new state to the `RelaySpec` function of the old state;
  the constructor, `Init`, `Close` and `Consume` state the new state
  directly.
- `QueueScenarios` (`scenarios.dfy`) is client code that follows the
  repository's test suite, using only the contracts.

Concurrency is replaced by parameters:

- The non-blocking `select` receive from `In` becomes an `Option` input to
  each loop iteration: `None` for "nothing ready" and also for "closed".
- `MatcherID` is a fixed, deterministic `Item -> string` function, or
  absent.
- Panics become failure results (`Result`, `Outcome`) or preconditions.

Points of the code the model follows:

- `Init` does not allocate `In` or `Out` (unique.go:56-74).
- `Run` panics on a bad configuration (unique.go:89-99), and the model
  returns a `Fail` outcome.
- At unique.go:113, `:=` declares a new `inQueueOk` that shadows the
  outer one, so the outer variable never becomes false. Closing `In`
  therefore does not end the loop; only `feederOk` does.
- On `Close`, items still in the buffer are abandoned, not drained.
- After a running `Close`, the buffer channel is closed (unique.go:106).
  A later push of a new key then sends on a closed channel
  (unique.go:161), which panics. The model returns a `SendOnClosed`
  failure.

## Model

| member | source | states |
|---|---|---|
| DedupIndex.KeySetMembers | unique.go:45-46 | a key is pending exactly when some buffered item carries it |
| DedupIndex.KeySetAppend | unique.go:161-162 | appending an item to the buffer adds exactly its key to the key set |
| DedupIndex.UniqueKeysPairwise | unique.go:152-159 | the buffer's keys being unique means any two buffered items have different keys |
| DedupIndex.UniqueKeysAppend | unique.go:153-162 | appending an item whose key is not pending keeps the buffered keys pairwise distinct |
| DedupIndex.IndexedSize | unique.go:153-189 | when the pending-key set indexes the buffer, its size equals the buffer length |
| RelaySpec.GetID | unique.go:135-142 | fails with MissingMatcher exactly when no MatcherID was given; otherwise returns the caller's key for the item |
| RelaySpec.Preflight | unique.go:89-99 | passes exactly when In is present, Out is present and Out's capacity is positive; otherwise reports the first failed check, in the order In, Out, capacity |
| RelaySpec.Push | unique.go:144-170 | pushUnique as a value: accepts exactly when the key is not pending and the buffer is open, and then appends the item and adds its key; fails with SendOnClosed exactly when the key is new and the buffer is closed; otherwise changes nothing; properties in PushAdmitsNewKey, PushRejectsDuplicate, PushOnClosedFails |
| RelaySpec.PushAdmitsNewKey | unique.go:144-170 | on an open buffer, an item whose key is not pending is accepted, appended at the buffer's tail and its key added; set and buffer each grow by one; the invariant holds afterwards |
| RelaySpec.PushRejectsDuplicate | unique.go:152-159 | an item whose key is pending is rejected and the buffer, key set and flags are unchanged |
| RelaySpec.PushOnClosedFails | unique.go:161 | after the buffer is closed, an item with a new key is a send on a closed channel: a SendOnClosed fault, and nothing changes |
| RelaySpec.Pop | unique.go:172-199 | popTo as a value: delivers an item exactly when the buffer is non-empty, and then that item is the head, the rest of the buffer remains and its key is removed; with nothing delivered the buffer and keys are unchanged and `ok` is cleared only for a closed buffer; properties in PopDeliversHead, PopOnEmpty, PopThenReadmit |
| RelaySpec.PopDeliversHead | unique.go:172-189 | on a non-empty buffer the head item is delivered and leaves the buffer, its key (which was pending) is removed, the set shrinks by one and the invariant holds afterwards |
| RelaySpec.PopOnEmpty | unique.go:172-198 | on an empty buffer nothing is delivered and nothing changes, except that a closed buffer clears feederOk |
| RelaySpec.PopThenReadmit | unique.go:153-189 | while an item is buffered its key blocks another item with that key; after the item is popped, that other item is admitted on an open buffer and is a SendOnClosed fault on a closed one |
| RelaySpec.Iterate | unique.go:112-131 | one fifo iteration as a value: Out grows by one item exactly when it had room and the buffer is non-empty after the receive, and that item is the oldest of the buffer after the receive; otherwise Out is unchanged; capacities and the closed state are kept; properties in IterateKeepsBounds, IterateFifo |
| RelaySpec.IterateKeepsBounds | unique.go:111-131 | one iteration keeps the invariant, forwards at most one item, and appends only when Out has room, so Out never exceeds its capacity |
| RelaySpec.IterateFifo | unique.go:113-131 | one iteration takes items only from the buffer's head to Out's tail and admits at the buffer's tail: Out followed by the buffer grows by exactly the admitted item |
| RelaySpec.Loop | unique.go:111-132 | the fifo loop over a script of receives as a value: Out only grows, by at most one item per iteration, and capacities and the closed state are kept; properties in LoopStopsWhenNotOk, LoopKeepsBounds, LoopFifo, IdleDrains |
| RelaySpec.LoopStopsWhenNotOk | unique.go:111 | once feederOk is false, no iteration runs and nothing is admitted |
| RelaySpec.LoopKeepsBounds | unique.go:111-132 | every run of the loop keeps the dedup invariant and Out's capacity bound, and only appends to Out |
| RelaySpec.LoopFifo | unique.go:111-132 | after any run, Out followed by the buffer equals what they held before followed by the admitted items in admission order (FIFO) |
| RelaySpec.IdleDrains | unique.go:111-132 | with no input and room in Out, as many iterations as there are buffered items forward all of them in order and leave the buffer and key set empty |
| Queue.UniqueQueue.constructor | unique.go:27-51 | the struct literal: caller-supplied MatcherID, In, Out and BufferSize; private fields at their zero values |
| Queue.UniqueQueue.Init | unique.go:56-74 | BufferSize becomes 100 when it is 0 and is otherwise kept; the key set and buffer are empty, the buffer's capacity is BufferSize, the buffer is open, feederOk is true, In and Out are untouched |
| Queue.UniqueQueue.Run | unique.go:77-81 | returns the preflight outcome and starts the loop exactly when the outcome passes |
| Queue.UniqueQueue.Close | unique.go:83-87 | clears feederOk; if the loop was running it stops and closes the buffer (unique.go:106); buffered items and their keys are abandoned, not drained |
| Queue.UniqueQueue.PushUnique | unique.go:144-170 | fails without a MatcherID and changes nothing; otherwise the result, buffer and key set are those of Push: accepted exactly when the key is not pending on an open buffer, SendOnClosed for a new key after the buffer was closed; keeps the invariant |
| Queue.UniqueQueue.PopTo | unique.go:172-199 | on a non-empty buffer returns the head and updates state as Pop does; on an empty one returns nothing and clears feederOk only if the buffer is closed; keeps the invariant |
| Queue.UniqueQueue.Step | unique.go:112-131 | one loop iteration updates the buffer, key set, flag and Out exactly as Iterate does |
| Queue.UniqueQueue.Fifo | unique.go:103-133 | the loop, run while feederOk holds over a script of receives, leaves the state that Loop gives |
| Queue.UniqueQueue.Consume | unique_test.go:136-140 | the consumer's receive from Out returns its oldest item and removes it |

## Left out

- The goroutine, the `sync.WaitGroup` and the blocking wait in `Close`
  (unique.go:79-80, 86, 104) are concurrency. `Close` is modelled as having
  waited for the loop to exit: the flag is cleared, and if the loop was
  running it has stopped and closed the buffer. The data race on
  `feederOk` between `Close` and the loop is not modelled.
- Channel mechanics (`select`/`default`, blocking sends and receives) are
  not modelled. `In` is reduced to whether it is present; what it yields is
  the input of each iteration. The contents and capacity of `Out` are
  modelled. The consumer's reads are modelled only through `Consume`.
- Logging through logrus and the `counter` variable (unique.go:14,
  109, 115-118, 147-150, 164-167, 183-186, 191-194) have no effect on
  state.
- The body of `MatcherID` is the caller's. It is a fixed function parameter.
- Queue.UniqueQueue.PushUnique: requires room in the buffer when the key
  is new and the buffer is open. In the source, the send at unique.go:161
  would block the worker forever, because that worker is the buffer's
  only reader. A closed buffer needs no room: the send fails at once.
- RelaySpec.Iterate: requires, through `CanIterate` and `Runnable`, that a
  new key meets an open buffer with room. The loop only runs before its
  exit closes the buffer (unique.go:106), so it never meets a closed one.
  Queue.UniqueQueue.Step and Queue.UniqueQueue.Fifo get this from their
  invariant, since a running relay's buffer is open.
- Queue.UniqueQueue.Step: requires a MatcherID. The source runs idle
  iterations on an empty buffer without one and panics only when an item
  arrives. Fifo requires the same.
- Queue.UniqueQueue.Run: requires that `Init` ran, that `Close` has not run
  since, and that the loop is not already running. In the source, a second
  `Run` would start a second worker, and a `Run` before `Init` or after a
  running `Close` panics when the loop exits. A `Run` after a `Close` that
  found no loop running does not panic: the worker sees `feederOk` false,
  exits at once and closes the still-open buffer (unique.go:106), so later
  pushes of new keys fail as after a running `Close`.
- Queue.UniqueQueue.Init: requires a non-negative BufferSize, because
  allocating the buffer channel with a negative size panics. It also
  requires that the loop is not running.
- The running-relay test (unique_test.go:131-143) depends on timing. It
  expects two items in a capacity-1 channel, so it states no usable
  property.
