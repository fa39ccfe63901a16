# Accelerometer sample store and batch message, in Dafny

This project models two parts of a Pebble watch app that records acceleration.

The first is the fixed-capacity sample store of `src/store.c`. It is a global array of `CFG_RETAINED_SAMPLES` unsigned samples and a fill cursor `write_position`. It has four operations:

- `add_to_store` appends a batch of `CFG_BATCH_SIZE` samples. If the batch does not fit, it first evicts just enough of the oldest samples.
- `remove_from_store` shifts the survivors to the front and clears the vacated slots.
- `get_batch_from_store` copies the oldest `CFG_BATCH_SIZE` slots into the caller's buffer.
- `has_stored_data` reports whether any sample is held.

The second is the outbound message that `data_handler` in `src/main.c` writes for each batch of raw readings. Key 0 (`KEY_COMMAND`) carries the data command, 1 (`COMMAND_DATA`). Axis `a` of sample `s` goes to key `3 * s + a + 1`.

`store.dfy` (module `Store`) holds the store:

- The globals become the class `SampleStore`. It has an `array<nat>` and an `int` cursor, because the C cursor is a signed `int`.
- The two configuration constants become the constructor parameters `retained` and `batchSize`, with `0 < batchSize <= retained`. The configuration header that defines them is not part of this model.
- `Valid()` is the store invariant: the cursor lies in `0 .. retained`, and every slot at or past the cursor holds 0.
- `Held()` is the sequence of held samples, oldest first.
- Each method is proved against a function on sequences: `Appended`, `ShiftLeft`, `AsWritten` or `Peek`. The lemmas state what those functions promise.

`message.dfy` (module `Message`) holds the message. It models the message as the sequence of key/value entries in the order `data_handler` writes them.

## Model

| member | source | states |
|---|---|---|
| Store.SampleStore.constructor | src/store.c:5-6 | the zero-initialised globals give a valid, empty store whose slots are all 0 |
| Store.SampleStore.Valid | src/store.c:5-6 | the store invariant: 0 <= cursor <= capacity, the array has capacity slots, 0 < batch size <= capacity, and every slot at or past the cursor holds 0 |
| Store.SampleStore.Held | src/store.c:5-6 | the held samples are slots [0, cursor), oldest first; their number is the cursor |
| Store.SampleStore.SlotsAreHeldThenZeros | src/store.c:5-6 | under the invariant, the whole array is the held samples followed by zeros |
| Store.SampleStore.HasStoredData | src/store.c:37-39 | true exactly when at least one sample is held |
| Store.SampleStore.CopyIn | src/store.c:14-17 | with room for the batch: keeps the invariant; the cursor advances by the batch length; the held samples become old held ++ batch |
| Store.SampleStore.Add | src/store.c:8-19 | keeps the invariant; cursor becomes min(old cursor + batch size, capacity); held samples become `Appended(old held, batch)`, i.e. the newest samples of old held ++ batch |
| Store.Appended | src/store.c:10-17 | the result is the newest min(held + batch, capacity) samples of held ++ batch, so the oldest are dropped and order is kept; its tail is the whole batch, so the batch is never truncated |
| Store.AsWrittenEvictionThenCopy | src/store.c:8-26 | evicting with the remove_from_store loop as written and then copying the batch in yields exactly `Appended(held, batch)`: the stale slots lie in the last batch-size slots, which the copy overwrites |
| Store.AppendedWithoutEviction | src/store.c:10 | when the batch fits, nothing is evicted and the batch is appended after all held samples |
| Store.AppendedEvictsExactly | src/store.c:10-12 | when the batch does not fit, exactly held + batch - capacity of the oldest samples are evicted; capacity - batch survivors stay in front of the batch; the store ends full |
| Store.AppendedToNewest | src/store.c:8-19 | adding a batch to a store that holds the newest samples of a stream leaves it holding the newest samples of the extended stream |
| Store.Fill | src/store.c:8-19 | the held samples after repeated add_to_store calls on an empty store; never more than the capacity |
| Store.FillKeepsNewest | src/store.c:8-19 | after any sequence of additions to an empty store, it holds the newest min(total, capacity) samples of the whole stream, in arrival order |
| Store.FourBatchesScenario | src/store.c:8-19 | with capacity 75 and batch 25, four additions of a 100-sample stream leave 75 samples, namely samples 26 to 100 |
| Store.SampleStore.Remove | src/store.c:21-28 | corrected removal of n <= cursor samples: keeps the invariant; cursor drops by exactly n; held becomes old held without its n oldest; slot i holds old slot n + i for i < capacity - n; every vacated slot is 0 |
| Store.ShiftLeft | src/store.c:22-26 | intended slot contents after removing n: slot i is old slot n + i below capacity - n, and 0 from there on |
| Store.SampleStore.RemoveAsWritten | src/store.c:21-28 | the loop as written: slots become `AsWritten(old slots, n)`; the cursor drops by n unchecked and can go negative |
| Store.AsWritten | src/store.c:22-26 | closed form of the remove_from_store loop for a non-negative count: same number of slots; its meaning is stated by the AsWritten lemmas |
| Store.AsWrittenKeepsSurvivors | src/store.c:22-23 | for n >= 1 the loop as written moves every survivor to its intended place |
| Store.AsWrittenMatchesShiftLeft | src/store.c:22-26 | for 1 <= n and 2n <= capacity the loop as written equals the intended shift and zero-fill |
| Store.AsWrittenLeavesStale | src/store.c:22-26 | for 2n > capacity, each slot i with capacity - n <= i < n keeps its old value, where the intended result is 0 |
| Store.AsWrittenLeavesStaleExample | src/store.c:22-26 | slots [1,2,3,4,5] with n = 4 become [5,2,3,4,0] instead of [5,0,0,0,0] |
| Store.AsWrittenZeroErases | src/store.c:22-26 | with n = 0 the loop as written clears every slot, where removing nothing should leave the slots unchanged |
| Store.AsWrittenBeyondCapacity | src/store.c:22 | with n greater than the capacity the loop runs no iteration and the slots are unchanged |
| Store.SampleStore.GetBatch | src/store.c:30-35 | the first batch-size entries of the caller's buffer become `Peek(held, batch size)`; its other entries and the store are unchanged |
| Store.Peek | src/store.c:32-34 | the batch has batch-size entries; entry i is held sample i while one is held, and 0 after the held samples |
| Store.PeekOldest | src/store.c:32-34 | when at least a batch is held, the batch is exactly the oldest batch-size samples |
| Store.PeekTwice | src/store.c:30-35 | two copies with no mutation in between yield identical batches and leave the held samples unchanged |
| Message.SampleKey | src/main.c:21-35 | a sample key is never the command key 0, and `SlotOfKey` recovers its sample and axis |
| Message.SlotOfKeyRoundTrip | src/main.c:29-35 | every non-zero key is the sample key of the (sample, axis) that `SlotOfKey` names |
| Message.SampleKeyInjective | src/main.c:29-35 | distinct (sample, axis) pairs get distinct keys |
| Message.SamplesLayout | src/main.c:19-37 | the entries of all samples, three per sample, in sample order |
| Message.Layout | src/main.c:17-37 | the expected message: 1 + 3n entries, the first being (0, 1) |
| Message.SamplesLayoutAt | src/main.c:19-37 | the sample entries number 3 per sample; the entry at position p has key p + 1, and its value is the unchanged reading of axis p mod 3 of sample p div 3 |
| Message.LayoutShape | src/main.c:17-37 | the message has 1 + 3n entries; the first is (0, 1); each entry's key equals its position, so keys strictly increase and lie in 1 .. 3n after the first; axis a of sample s sits under key 3s + a + 1 with its raw reading |
| Message.DataHandler | src/main.c:13-40 | the written entries equal `Layout` of the first num_samples readings; there are 1 + 3 num_samples of them and each key equals its position |

## Findings

| source | as written | input that shows it | evidently intended | confidence | as-written member | corrected member |
|---|---|---|---|---|---|---|
| src/store.c:22-26 | the loop clears slot n + i only for iterations i < capacity - n, so a vacated slot below n is never cleared | capacity 5, slots [1,2,3,4,5], n = 4: result [5,2,3,4,0] with cursor 1 | every vacated slot reads 0, the debug marker for an empty slot, so slots past the cursor stay 0 | not executed; add_to_store overwrites those slots right after its own call and only a direct caller of remove_from_store sees them | Store.AsWrittenLeavesStaleExample | Store.SampleStore.Remove |
| src/store.c:22-26 | with n = 0 each iteration copies slot i onto itself and then clears it | any store, n = 0: every slot becomes 0 while the cursor is unchanged | removing nothing leaves the store unchanged | not executed; add_to_store never passes 0 | Store.AsWrittenZeroErases | Store.SampleStore.Remove |

`Add` uses the corrected `Remove`. `Remove` requires `n <= cursor`. The C function has no such guard and drives the cursor negative: `RemoveAsWritten` shows this, because its cursor is a signed integer. `add_to_store` always calls with `1 <= n <= cursor`.

## Left out

- The single-flight send and retry-on-failure driver is not modelled. Nothing in `src/main.c` or `src/store.c` implements it: `data_handler` sends the raw readings directly and never calls into the store, and the outbox sent and failed callbacks only log and update the display.
- `src/util.c` is not part of this model. `my_sqrt` and `get_vertical_acceleration` are floating-point Newton iteration. `translate_error` is a string table over a platform enum whose values are not visible.
- The window, the text layer, the clock text, `init`, `deinit` and `main` are platform UI glue and are not modelled. So are the `app_message_*` and `dict_write_*` calls: the model keeps only the key/value sequence they would carry.
- Samples are unbounded `nat`s. The model does not capture wrap-around of the C `unsigned int` sample type.
- Message.DataHandler: keys are unbounded. The model does not capture wrap-around of the 32-bit key arithmetic, because the app only ever sends 25 samples per batch.
- Message.DataHandler: values are unbounded integers. The 8-bit command value and the 16-bit axis readings are not modelled as widths, because both fit in their declared widths.
- Store.SampleStore.Add: takes the new batch as a sequence and requires exactly `batchSize` samples. The C code relies on that length without checking it, and reading past a shorter caller array is not modelled.
- Store.SampleStore.RemoveAsWritten: takes the count as a `nat`. A negative count, which C accepts as an `int`, makes the loop read before the start of the array; this is undefined behaviour in C, no caller passes one, and the model does not capture it. `AsWritten` likewise covers only counts that are not negative.
- Store.SampleStore.GetBatch: requires the caller's buffer to be distinct from the store and at least `batchSize` long, which the C code also assumes. The header `src/store.h:6` declares a different signature. This model follows the definition in `src/store.c:30`.
