/** The Snowflake ID generator `IdWorker` (src/SnowFlake.Core/IdWorker.cs).
    The clock is not read here: `NextId` receives the reading it takes first
    and the readings its spin-wait would take after it. */
module Snowflake {
  import opened Bits
  import opened Layout

  /** The conditions the generator reports. The two argument errors are
      C#'s `ArgumentException`; a clock regression is a plain `Exception`. */
  datatype Error = InvalidWorkerId | InvalidDatacenterId | ClockMovedBackwards

  datatype Result<T> = Success(value: T) | Failure(error: Error)

  /** The abstract state of one generator. */
  datatype Generator = Generator(workerId: int64, datacenterId: int64, sequence: int64, lastTimestamp: int64)

  /** What one call of `NextId` does: it issues an ID and moves to a new
      state, or it refuses and the state stays as it was. */
  datatype Issue = Issued(id: int64, next: Generator) | Refused(error: Error)

  predicate ValidIds(workerId: int64, datacenterId: int64)
  {
    0 <= workerId as int <= MaxWorkerId && 0 <= datacenterId as int <= MaxDatacenterId
  }

  /** The error the constructor raises, checked in the order the source checks. */
  function ConstructorError(workerId: int64, datacenterId: int64): (e: Result<()>)
    ensures e.Success? <==> ValidIds(workerId, datacenterId)
    ensures !(0 <= workerId as int <= 31) ==> e == Failure(InvalidWorkerId)
    ensures 0 <= workerId as int <= 31 && !(0 <= datacenterId as int <= 31) ==> e == Failure(InvalidDatacenterId)
  {
    if workerId as int > MaxWorkerId || workerId < 0 then Failure(InvalidWorkerId)
    else if datacenterId as int > MaxDatacenterId || datacenterId < 0 then Failure(InvalidDatacenterId)
    else Success(())
  }

  /** Line 82: `(Sequence + 1) & SequenceMask` on a `long`, wrap-around included. */
  function NextSequence(sequence: int64): (r: int64)
    ensures 0 <= r as int <= SequenceMask
    ensures r as int == (sequence as int + 1) % (SequenceMask + 1)
  {
    AndMask12(Unsigned64(sequence as int + 1));
    LowBitsSurviveWrap(sequence as int + 1);
    And(Unsigned64(sequence as int + 1), SequenceMask) as int64
  }

  /** When the incremented sequence does not wrap to 0, it is one more than before. */
  lemma NextSequenceNoWrap(sequence: int64)
    requires 0 <= sequence as int <= SequenceMask && NextSequence(sequence) != 0
    ensures NextSequence(sequence) as int == sequence as int + 1
  {
  }

  /** A timestamp whose offset from `Twepoch` fits the 41-bit field. */
  predicate InEpochRange(timestamp: int64)
  {
    Twepoch <= timestamp && timestamp as int - Twepoch as int < TimestampLimit
  }

  /** Some reading in `readings` is past `lastTimestamp`, so the spin-wait ends. */
  predicate ClockAdvances(lastTimestamp: int64, readings: seq<int64>)
  {
    exists k :: 0 <= k < |readings| && readings[k] > lastTimestamp
  }

  /** The reading the spin-wait stops at: the first one past `lastTimestamp`. */
  function FirstAfter(lastTimestamp: int64, readings: seq<int64>): (t: int64)
    requires ClockAdvances(lastTimestamp, readings)
    ensures t > lastTimestamp
    ensures exists k :: 0 <= k < |readings| && readings[k] == t &&
                        forall j :: 0 <= j < k ==> readings[j] <= lastTimestamp
    decreases |readings|
  {
    if readings[0] > lastTimestamp then readings[0]
    else
      assert ClockAdvances(lastTimestamp, readings[1..]) by {
        var k :| 0 <= k < |readings| && readings[k] > lastTimestamp;
        assert readings[1..][k - 1] == readings[k];
      }
      var t := FirstAfter(lastTimestamp, readings[1..]);
      assert exists k :: 0 <= k < |readings| && readings[k] == t &&
                         forall j :: 0 <= j < k ==> readings[j] <= lastTimestamp by {
        var k :| 0 <= k < |readings[1..]| && readings[1..][k] == t &&
                 forall j :: 0 <= j < k ==> readings[1..][j] <= lastTimestamp;
        assert readings[k + 1] == t;
        forall j | 0 <= j < k + 1 ensures readings[j] <= lastTimestamp {
          if j > 0 { assert readings[j] == readings[1..][j - 1]; }
        }
      }
      t
  }

  /** The call lands in the same millisecond and the sequence wraps to 0,
      so the generator waits for a later millisecond (lines 80-86). */
  predicate MustWait(g: Generator, now: int64)
  {
    now == g.lastTimestamp && NextSequence(g.sequence) == 0
  }

  /** The timestamp a successful call puts into its ID. */
  function UsedTimestamp(g: Generator, now: int64, later: seq<int64>): (t: int64)
    requires MustWait(g, now) ==> ClockAdvances(g.lastTimestamp, later)
    ensures t >= now
    ensures MustWait(g, now) ==> t > g.lastTimestamp
  {
    if MustWait(g, now) then FirstAfter(g.lastTimestamp, later) else now
  }

  /** What a call needs beyond a successfully constructed generator: a wait
      that ends, and a used timestamp whose offset fits the 41-bit field. */
  predicate CanIssue(g: Generator, now: int64, later: seq<int64>)
  {
    ValidIds(g.workerId, g.datacenterId) &&
    (now >= g.lastTimestamp ==>
       (MustWait(g, now) ==> ClockAdvances(g.lastTimestamp, later)) &&
       InEpochRange(UsedTimestamp(g, now, later)))
  }

  /** The generator has issued an ID, so its state holds that ID's fields. */
  predicate HasIssued(g: Generator)
  {
    ValidIds(g.workerId, g.datacenterId) &&
    InEpochRange(g.lastTimestamp) && 0 <= g.sequence as int <= SequenceMask
  }

  /** The ID a generator that has issued an ID last issued, read off its state. */
  function LastId(g: Generator): int64
    requires ValidIds(g.workerId, g.datacenterId)
    requires InEpochRange(g.lastTimestamp) && 0 <= g.sequence as int <= SequenceMask
  {
    PackBelowSignBit(g.lastTimestamp as int - Twepoch as int, g.datacenterId as nat, g.workerId as nat, g.sequence as nat);
    Pack(g.lastTimestamp as int - Twepoch as int, g.datacenterId as nat, g.workerId as nat, g.sequence as nat) as int64
  }

  /** `NextId` (lines 69-98) as a transition on the abstract state. */
  function Step(g: Generator, now: int64, later: seq<int64>): (r: Issue)
    requires CanIssue(g, now, later)
    ensures r.Issued? ==> HasIssued(r.next) && r.id == LastId(r.next)
  {
    if now < g.lastTimestamp then Refused(ClockMovedBackwards)
    else
      var sequence := if g.lastTimestamp == now then NextSequence(g.sequence) else 0;
      var timestamp := UsedTimestamp(g, now, later);
      var next := g.(sequence := sequence, lastTimestamp := timestamp);
      Issued(LastId(next), next)
  }

  /** A call fails exactly when the clock reads earlier than the last
      timestamp, and then it reports a clock regression (lines 73-78). */
  lemma RefusedIffClockRegressed(g: Generator, now: int64, later: seq<int64>)
    requires CanIssue(g, now, later)
    ensures Step(g, now, later).Refused? <==> now < g.lastTimestamp
    ensures Step(g, now, later).Refused? ==> Step(g, now, later).error == ClockMovedBackwards
  {
  }

  /** A successful call leaves the sequence in 0..4095 whatever it was before;
      in the same millisecond it moves to the next value modulo 4096, in a new
      millisecond it restarts at 0 (lines 80-91). The ids do not change. */
  lemma IssuedSequence(g: Generator, now: int64, later: seq<int64>)
    requires CanIssue(g, now, later) && Step(g, now, later).Issued?
    ensures var next := Step(g, now, later).next;
      0 <= next.sequence as int <= SequenceMask &&
      next.sequence as int == (if now == g.lastTimestamp then (g.sequence as int + 1) % 4096 else 0) &&
      next.workerId == g.workerId && next.datacenterId == g.datacenterId
  {
  }

  /** A successful call uses the clock reading unless the sequence wrapped,
      and then it uses a reading strictly past the last timestamp (lines
      83-86 and 105-113); either way the last timestamp never decreases. */
  lemma IssuedTimestamp(g: Generator, now: int64, later: seq<int64>)
    requires CanIssue(g, now, later) && Step(g, now, later).Issued?
    ensures var next := Step(g, now, later).next;
      g.lastTimestamp <= next.lastTimestamp &&
      (now == g.lastTimestamp && next.sequence == 0 ==>
         next.lastTimestamp > g.lastTimestamp && next.lastTimestamp == FirstAfter(g.lastTimestamp, later)) &&
      (now == g.lastTimestamp && next.sequence != 0 ==> next.lastTimestamp == now) &&
      (now > g.lastTimestamp ==> next.lastTimestamp == now)
  {
  }

  /** The ID a successful call returns decodes to the new last timestamp's
      offset from `Twepoch`, the datacenter id, the worker id and the new
      sequence (line 94). */
  lemma IssuedIdDecodes(g: Generator, now: int64, later: seq<int64>)
    requires CanIssue(g, now, later) && Step(g, now, later).Issued?
    ensures var Issued(id, next) := Step(g, now, later);
      HasIssued(next) &&
      TimestampOf(id as nat) == next.lastTimestamp as int - Twepoch as int &&
      DatacenterIdOf(id as nat) == g.datacenterId as int &&
      WorkerIdOf(id as nat) == g.workerId as int &&
      SequenceOf(id as nat) == next.sequence as int
  {
    var next := Step(g, now, later).next;
    DecodePack(next.lastTimestamp as int - Twepoch as int, g.datacenterId as nat, g.workerId as nat, next.sequence as nat);
  }

  /** Composing the fields of an issued state with ORs gives its last ID. */
  lemma ComposedIsLastId(g: Generator)
    requires HasIssued(g)
    ensures ComposeId(g.lastTimestamp as int - Twepoch as int, g.datacenterId as nat, g.workerId as nat, g.sequence as nat)
            == LastId(g)
  {
  }

  /** Of two states with the same ids, the one with the later timestamp, or
      the same timestamp and a larger sequence, encodes the larger ID. */
  lemma LaterStateLargerId(g: Generator, next: Generator)
    requires HasIssued(g) && HasIssued(next)
    requires next.workerId == g.workerId && next.datacenterId == g.datacenterId
    requires g.lastTimestamp < next.lastTimestamp ||
             (g.lastTimestamp == next.lastTimestamp && g.sequence < next.sequence)
    ensures LastId(g) < LastId(next)
  {
    PackOrder(g.lastTimestamp as int - Twepoch as int, g.datacenterId as nat, g.workerId as nat, g.sequence as nat,
              next.lastTimestamp as int - Twepoch as int, g.datacenterId as nat, g.workerId as nat, next.sequence as nat);
  }

  /** The ID a successful call returns is larger than the last one the
      generator issued. */
  lemma IssuedIdExceedsLast(g: Generator, now: int64, later: seq<int64>)
    requires CanIssue(g, now, later) && Step(g, now, later).Issued?
    requires HasIssued(g)
    ensures LastId(g) < Step(g, now, later).id
  {
    var next := Step(g, now, later).next;
    IssuedTimestamp(g, now, later);
    if next.lastTimestamp == g.lastTimestamp {
      assert now == g.lastTimestamp && next.sequence == NextSequence(g.sequence);
      NextSequenceNoWrap(g.sequence);
    }
    LaterStateLargerId(g, next);
  }

  /** Appending the ID a successful call returns to a strictly increasing
      history that ends with the generator's last ID keeps it strictly
      increasing. */
  lemma IssueExtendsHistory(ids: seq<int64>, g: Generator, now: int64, later: seq<int64>)
    requires CanIssue(g, now, later) && Step(g, now, later).Issued?
    requires HistoryMatches(ids, g)
    ensures HistoryMatches(ids + [Step(g, now, later).id], Step(g, now, later).next)
  {
    if ids != [] {
      IssuedIdExceedsLast(g, now, later);
    }
    IncreasingAppend(ids, Step(g, now, later).id);
  }

  /** Two successive successful calls return increasing IDs, whatever state
      the first call started from. */
  lemma SuccessiveIdsIncrease(g: Generator, now1: int64, later1: seq<int64>, now2: int64, later2: seq<int64>)
    requires CanIssue(g, now1, later1) && Step(g, now1, later1).Issued?
    requires CanIssue(Step(g, now1, later1).next, now2, later2)
    requires Step(Step(g, now1, later1).next, now2, later2).Issued?
    ensures Step(g, now1, later1).id < Step(Step(g, now1, later1).next, now2, later2).id
  {
    var next := Step(g, now1, later1).next;
    IssuedIdDecodes(g, now1, later1);
    IssuedIdExceedsLast(next, now2, later2);
  }

  /** The first call of a fresh generator with worker id 1 and datacenter id 1,
      1000 ms after `Twepoch`, returns `(1000 << 22) | (1 << 17) | (1 << 12) | 0`. */
  lemma FirstCallExample()
    ensures CanIssue(Generator(1, 1, 0, -1), Twepoch + 1000, [])
    ensures Step(Generator(1, 1, 0, -1), Twepoch + 1000, []) ==
            Issued(1000 * 4194304 + 131072 + 4096, Generator(1, 1, 0, Twepoch + 1000))
  {
    var g, now := Generator(1, 1, 0, -1), Twepoch + 1000;
    assert !MustWait(g, now) && UsedTimestamp(g, now, []) == now;
    Pow2Values();
    ShiftLeftIsMul(1000, 22);
    ShiftLeftIsMul(1, 17);
    ShiftLeftIsMul(1, 12);
    assert Pack(1000, 1, 1, 0) == 1000 * 4194304 + 131072 + 4096;
  }

  /** `ids` strictly increase and, when there are any, the last of them is
      the ID that `g` encodes. */
  predicate HistoryMatches(ids: seq<int64>, g: Generator)
  {
    StrictlyIncreasing(ids) &&
    (ids != [] ==> HasIssued(g) && ids[|ids| - 1] == LastId(g))
  }

  predicate StrictlyIncreasing(ids: seq<int64>)
  {
    forall i, j :: 0 <= i < j < |ids| ==> ids[i] < ids[j]
  }

  lemma IncreasingAppend(ids: seq<int64>, id: int64)
    requires StrictlyIncreasing(ids)
    requires ids != [] ==> ids[|ids| - 1] < id
    ensures StrictlyIncreasing(ids + [id])
  {
  }

  /** The generator object (lines 8-120). `Sequence` and `_lastTimestamp`
      change on every successful `NextId`; the two ids are set only when the
      object is built. */
  class IdWorker {
    var workerId: int64
    var datacenterId: int64
    var sequence: int64
    var lastTimestamp: int64
    /** Every ID this object has returned, oldest first. */
    ghost var issued: seq<int64>

    ghost function Model(): Generator
      reads this
    {
      Generator(workerId, datacenterId, sequence, lastTimestamp)
    }

    /** The ids are in range, the IDs returned so far strictly increase, and
        the last of them is the one the current state encodes. */
    ghost predicate Valid()
      reads this
    {
      ValidIds(workerId, datacenterId) && HistoryMatches(issued, Model())
    }

    /** Lines 34 and 46-50: the field assignments, before any check. */
    constructor (workerId: int64, datacenterId: int64, sequence: int64)
      ensures Model() == Generator(workerId, datacenterId, sequence, -1)
      ensures issued == []
    {
      this.workerId := workerId;
      this.datacenterId := datacenterId;
      this.sequence := sequence;
      lastTimestamp := -1;
      issued := [];
    }

    /** `new IdWorker(workerId, datacenterId, sequence)` (lines 46-61): the
        object is built and then the ids are checked, the worker id first.
        The initial sequence is taken as it is. */
    static method Create(workerId: int64, datacenterId: int64, sequence: int64) returns (r: Result<IdWorker>)
      ensures ConstructorError(workerId, datacenterId).Failure? ==>
                r == Failure(ConstructorError(workerId, datacenterId).error)
      ensures ConstructorError(workerId, datacenterId).Success? ==>
                r.Success? && fresh(r.value) && r.value.Valid() && r.value.issued == [] &&
                r.value.Model() == Generator(workerId, datacenterId, sequence, -1)
    {
      var worker := new IdWorker(workerId, datacenterId, sequence);
      if workerId as int > MaxWorkerId || workerId < 0 {
        return Failure(InvalidWorkerId);
      }
      if datacenterId as int > MaxDatacenterId || datacenterId < 0 {
        return Failure(InvalidDatacenterId);
      }
      return Success(worker);
    }

    /** Lines 69-98: issue the next ID, given the clock reading `now` and the
        readings `later` that the spin-wait would take. */
    method NextId(now: int64, later: seq<int64>) returns (r: Result<int64>)
      requires Valid() && CanIssue(Model(), now, later)
      modifies this
      ensures Valid()
      ensures match Step(old(Model()), now, later)
        case Refused(e) => r == Failure(e) && Model() == old(Model()) && issued == old(issued)
        case Issued(id, next) => r == Success(id) && Model() == next && issued == old(issued) + [id]
    {
      ghost var g := Model();
      var timestamp := now;
      if timestamp < lastTimestamp {
        return Failure(ClockMovedBackwards);
      }
      if lastTimestamp == timestamp {
        sequence := NextSequence(sequence);
        if sequence == 0 {
          timestamp := TilNextMillis(lastTimestamp, later);
        }
      } else {
        sequence := 0;
      }
      assert timestamp == UsedTimestamp(g, now, later);
      lastTimestamp := timestamp;
      ghost var step := Step(g, now, later);
      assert Model() == step.next && HasIssued(step.next);
      var id := ComposeId(timestamp as int - Twepoch as int, datacenterId as nat, workerId as nat, sequence as nat);
      ComposedIsLastId(step.next);
      assert id == step.id;
      IssueExtendsHistory(issued, g, now, later);
      issued := issued + [id];
      return Success(id);
    }

    /** Lines 105-113: poll the clock until it reads past `lastTimestamp`. */
    method TilNextMillis(lastTimestamp: int64, readings: seq<int64>) returns (timestamp: int64)
      requires ClockAdvances(lastTimestamp, readings)
      ensures timestamp == FirstAfter(lastTimestamp, readings)
    {
      var i := 0;
      timestamp := readings[0];
      while timestamp <= lastTimestamp
        invariant 0 <= i < |readings| && timestamp == readings[i]
        invariant ClockAdvances(lastTimestamp, readings[i..])
        invariant FirstAfter(lastTimestamp, readings[i..]) == FirstAfter(lastTimestamp, readings)
        decreases |readings| - i
      {
        assert readings[i..][1..] == readings[i + 1..];
        i := i + 1;
        timestamp := readings[i];
      }
    }
  }
}
