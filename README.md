# Snowflake ID generator in Dafny

This project models the core of the Snowflake ID generator, class `IdWorker`
in `src/SnowFlake.Core/IdWorker.cs`, and proves what the generator promises.
An ID is a 64-bit `long`. From the most significant bit down it holds:

- a sign bit that stays 0;
- 41 bits of milliseconds since `Twepoch` (1288834974657);
- 5 bits of datacenter id;
- 5 bits of worker id;
- a 12-bit sequence that counts the IDs issued within one millisecond.

The project has three modules:

- `Bits` (`bits.dfy`) gives `<<`, `>>`, `|` and `&` their meaning on
  non-negative integers. Each is defined one bit at a time. Lemmas relate
  them to arithmetic.
- `Layout` (`layout.dfy`) holds:
  - the constants of lines 10-31;
  - the composition of an ID on line 94 (`ComposeId`, the OR of the shifted
    fields);
  - the arithmetic reading of that composition (`Pack`);
  - shift-and-mask decoders for the four fields;
  - the proofs that composing and decoding are inverse and that IDs order by
    timestamp first.
- `Snowflake` (`id_worker.dfy`) models the generator:
  - the class `IdWorker` with the source's mutable fields. Its constructor
    (`Create`) validates the ids. Its `NextId` method follows lines 69-98
    step by step, and `TilNextMillis` keeps the source's polling loop;
  - a pure transition `Step` on the abstract state `Generator`. `Step` is
    the specification `NextId` is proved against;
  - lemmas about `Step`: the sequence, the timestamp, decoding, and strictly
    increasing IDs.

The object also keeps a ghost history `issued` of every ID it returned. Its
invariant `Valid()` states that this history strictly increases and ends with
the ID the current state encodes. Every successful `NextId` preserves it.

The clock is an input. `NextId(now, later)` receives the reading taken on
line 73 (`now`). It also receives the sequence of readings that the spin-wait
of lines 105-113 would take (`later`).

### Where the code and the design description differ

The model follows the code in each case below.

- The constructor assigns `WorkerId`, `DatacenterId` and `Sequence`
  (lines 48-50) before it checks the two ids (lines 52-60). It checks the
  worker id first. It never checks the initial sequence, so the bound
  `0 <= sequence <= 4095` holds only after a successful `NextId`. It does not
  hold "at all times": a generator built with sequence 5000 keeps 5000 until
  its first successful call.
- The design asks that a clock regression report the drift
  `lastTimestamp - now`. Line 77 passes the drift to `String.Format`, but the
  format string has no placeholder, so the drift is dropped. The model's
  `ClockMovedBackwards` carries no drift.
- `Sequence + 1` on line 82 is 64-bit arithmetic. The model wraps it
  (`Bits.Unsigned64`) before masking. The result is still
  `(sequence + 1) mod 4096` for every `long` value.

## Model

| member | source | states |
|---|---|---|
| Layout.ConstantsFollowWidths | src/SnowFlake.Core/IdWorker.cs:13-31 | The maximum ids and the sequence mask are `2^bits - 1` for widths 5, 5 and 12. The shifts are 12, 12+5 and 12+5+5. The 41 timestamp bits are what remains below the sign bit. |
| Layout.MasksMatchSource | src/SnowFlake.Core/IdWorker.cs:20-24 | On 64-bit words, `-1L ^ (-1L << 5)` is 31 and `-1L ^ (-1L << 12)` is 4095. |
| Layout.ComposeId | src/SnowFlake.Core/IdWorker.cs:94 | When every field fits its width, the OR of the shifted fields is a non-negative `long`. It equals the fields' weighted sum. |
| Layout.ComposeIsPack | src/SnowFlake.Core/IdWorker.cs:94 | The shifted fields occupy disjoint bits, so OR-ing them is adding them. |
| Layout.PackBelowSignBit | src/SnowFlake.Core/IdWorker.cs:94 | A composed ID stays below `2^63`, so the sign bit is 0. |
| Layout.DecodePack | src/SnowFlake.Core/IdWorker.cs:27-31 | `id >> 22`, `(id >> 17) & 31`, `(id >> 12) & 31` and `id & 4095` give back the timestamp offset, datacenter id, worker id and sequence that were composed. |
| Layout.PackOrder | src/SnowFlake.Core/IdWorker.cs:94 | A later timestamp gives a larger ID whatever the lower fields hold. With the same timestamp and ids, a larger sequence gives a larger ID. |
| Snowflake.ConstructorError | src/SnowFlake.Core/IdWorker.cs:52-60 | Construction succeeds iff both ids are in `0..31`. A worker id outside that range is reported first. A bad datacenter id is reported only when the worker id is good. |
| Snowflake.NextSequence | src/SnowFlake.Core/IdWorker.cs:82 | `(Sequence + 1) & SequenceMask` is in `0..4095` and equals `(sequence + 1) mod 4096`, 64-bit wrap-around included. |
| Snowflake.NextSequenceNoWrap | src/SnowFlake.Core/IdWorker.cs:82-83 | From an in-range sequence, an increment that does not wrap to 0 is exactly one more. |
| Snowflake.FirstAfter | src/SnowFlake.Core/IdWorker.cs:105-113 | The reading the spin-wait stops at is later than `lastTimestamp`. Every reading polled before it is not later. |
| Snowflake.UsedTimestamp | src/SnowFlake.Core/IdWorker.cs:80-86 | The timestamp put into the ID is never before the first reading. When the sequence wraps within the same millisecond, it is strictly after the last timestamp. |
| Snowflake.Step | src/SnowFlake.Core/IdWorker.cs:73-94 | A successful call leaves a state with in-range fields, and it returns the ID that state encodes. |
| Snowflake.RefusedIffClockRegressed | src/SnowFlake.Core/IdWorker.cs:75-78 | A call is refused iff the clock reads before the last timestamp, and then it reports a clock regression. |
| Snowflake.IssuedSequence | src/SnowFlake.Core/IdWorker.cs:80-91 | After a successful call the sequence is in `0..4095`. In the same millisecond it is the old sequence plus one mod 4096; in a new millisecond it is 0. The ids are unchanged. |
| Snowflake.IssuedTimestamp | src/SnowFlake.Core/IdWorker.cs:80-93 | The last timestamp never decreases. On a wrap it moves to the first polled reading past the old one. Otherwise it is the reading of line 73. |
| Snowflake.IssuedIdDecodes | src/SnowFlake.Core/IdWorker.cs:93-94 | The returned ID decodes to the new last timestamp's offset, the two ids and the new sequence. |
| Snowflake.ComposedIsLastId | src/SnowFlake.Core/IdWorker.cs:94 | The OR composition of a state's fields is the ID that state encodes. |
| Snowflake.LaterStateLargerId | src/SnowFlake.Core/IdWorker.cs:94 | Of two states with the same ids, the one with the later timestamp, or the same timestamp and larger sequence, encodes the larger ID. |
| Snowflake.IssuedIdExceedsLast | src/SnowFlake.Core/IdWorker.cs:80-94 | A successful call returns an ID larger than the last one the generator issued. |
| Snowflake.IssueExtendsHistory | src/SnowFlake.Core/IdWorker.cs:69-98 | Appending the returned ID keeps the history of issued IDs strictly increasing, ending with the ID the new state encodes. |
| Snowflake.SuccessiveIdsIncrease | src/SnowFlake.Core/IdWorker.cs:69-98 | Two successive successful calls return strictly increasing IDs. |
| Snowflake.FirstCallExample | src/SnowFlake.Core/IdWorker.cs:94 | Worker 1, datacenter 1, first call 1000 ms after `Twepoch`: the ID is `1000 * 2^22 + 2^17 + 2^12`, the value of `(1000 << 22) OR (1 << 17) OR (1 << 12)`. |
| Snowflake.IdWorker.constructor | src/SnowFlake.Core/IdWorker.cs:46-50 | The fields take the arguments as given and `lastTimestamp` starts at -1. |
| Snowflake.IdWorker.Create | src/SnowFlake.Core/IdWorker.cs:46-61 | Construction fails with the error `ConstructorError` names. Otherwise it gives a fresh generator that satisfies its invariant, has issued nothing, and holds the given ids and sequence with `lastTimestamp` -1. |
| Snowflake.IdWorker.NextId | src/SnowFlake.Core/IdWorker.cs:69-98 | The call does what `Step` says. On a regression it fails and changes nothing. Otherwise it returns the ID, moves to the new state and appends the ID to the history. The invariant, strictly increasing IDs, is preserved. |
| Snowflake.IdWorker.TilNextMillis | src/SnowFlake.Core/IdWorker.cs:105-113 | The polling loop returns the first reading later than `lastTimestamp`. |

## Left out

- The lock on lines 63 and 71, and concurrency. The model is sequential, and each `NextId` call is one atomic step, as the lock makes it.
- `TimeGen` (line 119) and the system clock. Clock readings are the parameters `now` and `later` of `NextId`.
- Snowflake.IdWorker.NextId: requires `CanIssue`. Within that, `ClockAdvances` says some polled reading passes the last timestamp; the source spins forever on a stalled clock, which is not modelled.
- Snowflake.IdWorker.NextId: requires the timestamp it uses to lie in `[Twepoch, Twepoch + 2^41)`. The source does not check this: earlier clocks give negative IDs, and later ones overflow the 41-bit field. Neither case is modelled.
- Snowflake.Step: has the same two preconditions as `NextId`, for the same reasons.
- Layout.ComposeId: requires every field to fit its width. The bitwise functions are defined on non-negative values only, and under the preconditions above every operand of line 94 is non-negative and in range.
- The text of the exceptions (lines 54, 59 and 77). Errors are the values `InvalidWorkerId`, `InvalidDatacenterId` and `ClockMovedBackwards`.
- The `virtual` and `protected` modifiers and the `protected`/`internal` setters. Overriding by subclasses is not modelled.
- `Program.cs`, the benchmarking driver, is not part of this model.
