# Field-state codec and consumer pool

A Dafny model of the core of a bridge that takes field-state frames from
a vision system and forwards the newest one to every attached robot link.
It has two parts.

- `messages.dfy`, module `Messages`: the fixed-point wire codec. Every
  scalar goes out as one unsigned byte. `PackFloat` sends twice the value,
  rounded half away from zero (Python 2's `round`) and capped at 254.
  `PackInt` rounds and caps at 254. Neither has a lower clamp. An input of
  -0.25 or below (`PackFloat`) or -0.5 or below (`PackInt`) packs to a
  negative number, which `struct.pack('B', …)` rejects; that failure is
  the `ByteOutOfRange` error. Inputs just below zero, in (-0.25, 0) and
  (-0.5, 0), pack to 0 and succeed. `Vector2D` packs to 2 bytes (x, y).
  `RobotInfo` packs to 4 bytes (id, heading, x, y); the heading goes
  through plain `PackFloat`. `Header` packs to 2 bytes (robot count, ball count). The
  decoders fail on short input (`BufferTooShort`, from `unpack_from`) or
  on a buffer of the wrong length (`WrongLength`, from `unpack`). Numbers
  are exact `real`s, not IEEE doubles.
- `server.dfy`, module `Server`: the consumers and their registry.
  `FieldUpdateConsumer` is a class with a `running` flag and an unbounded
  FIFO `queue` (a `seq`). One turn of its `run` loop is split the way the
  source reads. `TakeLatest` does one `get` and then drains the queue with
  `get_nowait`, so only the newest frame survives. `ProcessIfRunning` hands
  that frame to `process_frame` only if the consumer is still running.
  `ConsumerPool` is a class holding an ordered `seq` of consumers. Its `Put`
  and `StopAll` loop over the members and update each one in place.

Threads are abstracted away: each method is atomic. Splitting the `run`
turn into two methods lets a caller run `SetRunning(false)` between the
dequeue and the second `running()` check. `StoppedBeforeProcessScenario`
shows that case. Of the pool's lock, the model keeps one fact, `lockHeld`,
because it matters: `remove_consumer` can leave the lock acquired (see
"## Findings").

Facts about the program that the model keeps:
- the heading is one plain `pack_float` byte (src/messages.py:96). The
  TODO at src/messages.py:12 notes that signed headings are not handled;
- a `RobotInfo` is 4 bytes (src/messages.py:87);
- a consumer's queue is an unbounded FIFO, and each turn of `run` drains it;
- removing an unregistered consumer raises `ValueError` from `list.remove`
  while the pool's lock is held, and nothing releases the lock;
- a consumer registered twice gets each broadcast frame twice.

## Model

| member | source | states |
|---|---|---|
| `Messages.Round` | src/messages.py:21 | the result is the nearest integer, with halves rounded away from zero (the bounds fix it uniquely) |
| `Messages.PackFloat` | src/messages.py:16-27 | never above 254; exactly 254 iff the input is at least 126.75; otherwise `Round` of twice the input (halves away from zero), so within 0.5 of it; non-negative iff the input exceeds -0.25 (no lower clamp) |
| `Messages.UnpackFloat` | src/messages.py:29-33 | twice the result is the packed number, and packing the result gives back every packed number up to 254 |
| `Messages.PackInt` | src/messages.py:35-41 | never above 254; 254 for any input above 254; otherwise `Round` of the input (halves away from zero), so within 0.5 of it; non-negative iff the input exceeds -0.5 |
| `Messages.UnpackInt` | src/messages.py:43-44 | the number is returned unchanged, and values in 0..254 are fixed points of `PackInt` |
| `Messages.PackUnsignedBytes` | src/messages.py:57 | `struct.pack` of 'B' fields succeeds iff every value is in 0..255, and then gives exactly those values in order; otherwise the error names a value that is out of range |
| `Messages.Vector2D.Pack` | src/messages.py:55-57 | succeeds iff both coordinates exceed -0.25; then exactly `PACKED_SIZE` = 2 bytes, `PackFloat(x)` then `PackFloat(y)` |
| `Messages.Vector2D.Unpack` | src/messages.py:59-66 | succeeds iff the buffer holds at least `offset + 2` bytes; x and y are half of the bytes at `offset` and `offset + 1` |
| `Messages.Vector2D.Equals` | src/messages.py:75-78 | true exactly when the two positions are the same value, i.e. both coordinates are equal |
| `Messages.RobotInfo.Pack` | src/messages.py:94-98 | succeeds iff the id is non-negative and heading, x and y exceed -0.25; then exactly `PACKED_SIZE` = 4 bytes: `PackInt(id)`, `PackFloat(heading)`, then the position's 2 bytes |
| `Messages.RobotInfo.Unpack` | src/messages.py:100-110 | succeeds iff there are at least 4 bytes; the id is byte 0, the heading half of byte 1, the position is decoded from offset 2; fewer than 2 bytes is a length error, 2 or 3 a short-buffer error |
| `Messages.RobotInfo.Equals` | src/messages.py:119-123 | true exactly when id, heading and position are all equal |
| `Messages.Header.Pack` | src/messages.py:136-140 | succeeds iff both counts are non-negative; then 2 bytes, `PackInt(numRobots)` then `PackInt(numBalls)` |
| `Messages.Header.Unpack` | src/messages.py:142-149 | succeeds iff the buffer is exactly 2 bytes long; the counts are bytes 0 and 1 |
| `Messages.PackFloatHalfStepRoundTrip` | src/messages.py:16-33 | every multiple of 0.5 in [0, 127] packs into 0..254 and unpacks to itself |
| `Messages.PackFloatPrecision` | src/messages.py:16-33 | every value in [0, 127] packs into 0..254 and unpacks to within 0.25 of itself |
| `Messages.PackFloatSaturates` | src/messages.py:16-27 | every value above 127 packs to 254 and unpacks to 127 |
| `Messages.PackIntFixedPoints` | src/messages.py:35-44 | integers in 0..254 are fixed points of `PackInt`, and `UnpackInt` returns them |
| `Messages.PackIntOnIntegers` | src/messages.py:35-41 | on integers `PackInt` is `min(n, 254)` |
| `Messages.Vector2DRoundTrip` | src/messages.py:55-66 | a position with half-step coordinates packs, and unpacking it at its offset in any surrounding buffer gives it back |
| `Messages.Vector2DBytesRoundTrip` | src/messages.py:55-66 | two bytes decode, and the decoded position packs back to those bytes iff neither byte is 255 |
| `Messages.RobotInfoRoundTrip` | src/messages.py:94-110 | a robot with id in 0..254 and half-step heading and coordinates round-trips through `Pack` and `Unpack` |
| `Messages.RobotInfoBytesRoundTrip` | src/messages.py:94-110 | four bytes decode, and the decoded robot packs back to those bytes iff none of them is 255 |
| `Messages.HeaderRoundTrip` | src/messages.py:136-149 | counts in 0..254 round-trip through `Pack` and `Unpack` |
| `Messages.HeaderBytesRoundTrip` | src/messages.py:136-149 | two bytes decode, and the decoded header packs back to those bytes iff neither is 255 |
| `Messages.TiesAwayFromZero` | src/messages.py:21-41 | ties round away from zero: `PackFloat(0.25) == 1`, `PackInt(2.5) == 3`, `PackInt(-2.5) == -3`, `PackFloat(-0.25) == -1` |
| `Messages.TestPackFloat` | src/messages.py:155-157 | `PackFloat(5.0) == 10` and `PackFloat(2.5) == 5` |
| `Messages.TestUnpackFloat` | src/messages.py:159-160 | `UnpackFloat(15) == 7.5` |
| `Messages.TestPackInt` | src/messages.py:162-165 | `PackInt` gives 5 for 5, and 254 for both 255 and 655 |
| `Messages.TestVector2DPackUnpack` | src/messages.py:169-177 | (3.5, 6) round-trips through `Vector2D.Pack` and `Vector2D.Unpack` |
| `Messages.TestVector2DEquals` | src/messages.py:179-187 | (1, 2) equals (1, 2) and differs from (1, 3) and (2, 2) |
| `Messages.TestRobotInfoPackUnpack` | src/messages.py:190-201 | robot (3, 13.5, (3.5, 6)) round-trips |
| `Messages.TestRobotInfoEquals` | src/messages.py:203-213 | a robot equals its copy and differs when any one of id, heading or position changes |
| `Messages.TestHeaderPackUnpack` | src/messages.py:216-225 | header (5, 3) round-trips |
| `Server.Latest` | src/server.py:56-59 | the drain yields nothing iff the queue is empty, and otherwise an element of the queue |
| `Server.LatestIsLastPut` | src/server.py:46-59 | after any puts on any queue, the drain yields the frame put last |
| `Server.RemoveFirst` | src/server.py:118 | `list.remove`: one element shorter when the value is present, unchanged when absent, and one occurrence fewer in the multiset |
| `Server.RemoveFirstAt` | src/server.py:116-119 | the element deleted is the one at the first index holding the value; the rest keep their order |
| `Server.RemoveAfterAppend` | src/server.py:111-119 | removing a consumer that was just appended, and not registered before, restores the membership list |
| `Server.FieldUpdateConsumer.Start` | src/server.py:25-29 | the consumer starts running with an empty queue |
| `Server.FieldUpdateConsumer.IsRunning` | src/server.py:34-39 | returns the running flag |
| `Server.FieldUpdateConsumer.SetRunning` | src/server.py:41-44 | the flag becomes the given value; the queue is untouched |
| `Server.FieldUpdateConsumer.Put` | src/server.py:46-47 | always succeeds and appends the frame to the FIFO |
| `Server.FieldUpdateConsumer.TakeLatest` | src/server.py:51-62 | the dequeue-and-drain loop leaves the queue empty and yields its last element, or nothing if it was empty |
| `Server.FieldUpdateConsumer.ProcessIfRunning` | src/server.py:64-67 | a frame goes to `process_frame` iff the consumer is still running and a frame was obtained, and it is that frame |
| `Server.FieldUpdateConsumer.RunStep` | src/server.py:49-67 | a stopped consumer leaves the loop and touches nothing; a running one empties its queue and processes the most recent put |
| `Server.ConsumerPool.constructor` | src/server.py:107-109 | a new pool has no members and its lock is free |
| `Server.ConsumerPool.AddConsumer` | src/server.py:111-114 | the consumer is appended; earlier members and their order are unchanged |
| `Server.ConsumerPool.RemoveConsumer` | src/server.py:116-119 | reports an error iff the consumer is not registered; the membership becomes `RemoveFirst` of the old one (unchanged on error); on the error path the lock is left held, after which no pool method can be called |
| `Server.ConsumerPool.RemoveConsumerReleasingLock` | src/server.py:116-119 | the corrected removal: the same error report and membership change, and the lock is free afterwards |
| `Server.ConsumerPool.StopAll` | src/server.py:121-125 | every member's running flag is cleared; queues and membership are untouched |
| `Server.ConsumerPool.Put` | src/server.py:133-137 | every member's queue gains the frame once per registration; flags and membership are untouched |
| `Server.BroadcastOnce` | src/server.py:133-137 | a consumer registered once gets exactly one copy of a broadcast frame |
| `Server.SetRunningScenario` | src/server.py:34-44 | `running()` returns the value most recently given to `set_running` |
| `Server.CoalescingScenario` | src/server.py:46-62 | after three puts with no take between them, the next turn processes only the third |
| `Server.StoppedBeforeProcessScenario` | src/server.py:64-67 | a consumer stopped between the dequeue and the second `running()` check processes nothing |
| `Server.PoolScenario` | src/server.py:111-137 | a registered consumer sees the newest broadcast frame, and after its removal a later broadcast no longer reaches it |
| `Server.RemoveUnregisteredScenario` | src/server.py:116-119 | removing a consumer that was never registered reports the error and leaves the pool's lock held |
| `Server.RemoveUnregisteredReleasingScenario` | src/server.py:116-119 | with the corrected removal, the same error leaves the pool usable: a later registration and broadcast deliver the frame |

## Findings

| source | as written | input that shows it | evidently intended | confidence | as-written member | corrected member |
|---|---|---|---|---|---|---|
| src/server.py:116-119 | `list.remove` raises `ValueError` between `acquire` and `release`, with no `try`/`finally`, so the pool's lock stays held and every later `add_consumer`, `remove_consumer`, `stop_all` and `put` blocks forever | `remove_consumer(c)` for a consumer `c` that is not registered, on any pool | the error is reported and the lock is released, so the pool stays usable | not executed | `Server.RemoveUnregisteredScenario` (on `Server.ConsumerPool.RemoveConsumer`) | `Server.RemoveUnregisteredReleasingScenario` (on `Server.ConsumerPool.RemoveConsumerReleasingLock`) |

## Left out

- Threads and locks: `threading.Lock`, `Thread.start`, `join` and `join_all` are not modelled. Each method is atomic, and interleavings are written out by calling the methods in order. The one lasting lock effect, the lock that `remove_consumer` leaves held, is kept as `lockHeld`.
- `Server.ConsumerPool.RemoveConsumer`: a pool call made while `lockHeld` is true blocks forever in the source. The model does not express a call that never returns. Instead, every pool method requires `!lockHeld`.
- `Server.FieldUpdateConsumer.ProcessIfRunning`: the source skips a frame that `is None` (src/server.py:66), so `put(None)` is never processed. Frames here are values of any type `F`, and every frame that was put can be processed.
- The 0.1 s timeout of `Queue.get`: on an empty queue the get yields nothing at once.
- `process_frame` is overridden by subclasses to do I/O. Here the frame handed to it is returned as an `Option`.
- `DebugConsumer` (prints) and `BluetoothConsumer` (serial port) are not modelled. Neither is the `messages.FieldInfo` they build, which is not part of this model; so whole-frame packing and the coordinate shift/scale are absent too.
- `open_mcast_socket` and `main` are network and command-line code, not modelled.
- The device-attach watcher and a signed angle codec are not modelled, because neither exists in the code.
- `__repr__`, `__str__` and `__ne__` are not modelled. `__ne__` is the negation of `__eq__`.
- `__eq__` returns `NotImplemented` for an argument of another class. The typed model cannot express that.
- `Messages.Vector2D.Unpack`: the offset is a `nat`, because both callers pass 0 or 2. Python's handling of negative offsets is not modelled.
- `Messages.RobotInfo` and `Messages.Header` hold integer ids and counts. `PackInt` takes any real, but rounding a fractional id or count does not arise through these types.
- IEEE floating point is not modelled. Values are exact reals, so float rounding error in `num*2.0` is absent.
