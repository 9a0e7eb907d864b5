/**
 The sequence manager: numbers are issued at once, and a background writer stores the latest one,
 leaving out those that were overtaken. Issuing, closing and the writer's single steps interleave
 freely, and any write can fail.
 */
module SequenceManager {

  datatype ResultSequence = ResultSequence(sequence: nat, sourceChangeId: string)

  const DEFAULT := ResultSequence(0, "")

  /** The watch channel holds one value; a receiver sees that its version has moved on. */
  datatype Channel = Channel(value: ResultSequence, version: nat, closed: bool)

  datatype Writer =
    | Waiting
    | Notified(closing: bool)                          // woken, by a change or by the close
    | Applying(latest: ResultSequence, closing: bool)
    | Finished

  datatype State = State(
    initial: ResultSequence,     // what the store held when the manager was made
    issued: seq<ResultSequence>, // every number given out, with the change it was given out for
    value: ResultSequence,
    channel: Channel,
    seen: nat,                   // the version the writer has been notified of
    writer: Writer,
    stored: ResultSequence,
    lastWriteOk: bool)

  /** The issuing side, updated in place; its methods are steps of the machine. */
  class Manager {
    var value: ResultSequence
    var channel: Channel

    ghost predicate Shows(s: State)
      reads this
    {
      value == s.value && channel == s.channel
    }

    constructor (current: ResultSequence)
      ensures value == current && channel == Channel(ResultSequence(0, ""), 0, false)
      ensures forall s: State :: Init(s) && s.initial == current ==> Shows(s)
    {
      value, channel := current, Channel(DEFAULT, 0, false);
    }

    method Increment(sourceChangeId: string, ghost s: State) returns (sequence: nat)
      requires Shows(s) && !channel.closed
      modifies this
      ensures sequence == old(value.sequence) + 1 && value == ResultSequence(sequence, sourceChangeId)
      ensures channel == Channel(value, old(channel.version) + 1, false)
      ensures Shows(Next(s, Step.Increment(sourceChangeId)))
      ensures Next(s, Step.Increment(sourceChangeId)).issued == s.issued + [ResultSequence(sequence, sourceChangeId)]
    {
      value := ResultSequence(value.sequence + 1, sourceChangeId);
      channel := channel.(value := value, version := channel.version + 1);
      return value.sequence;
    }

    /** Dropping the manager closes its channel. */
    method Drop(ghost s: State)
      requires Shows(s) && !channel.closed
      modifies this
      ensures Shows(Next(s, Close)) && value == old(value) && channel == old(channel).(closed := true)
    {
      channel := channel.(closed := true);
    }
  }

  datatype Step =
    | Increment(sourceChangeId: string)
    | Close
    | Wake
    | Borrow
    | Apply(ok: bool)

  predicate Init(s: State) {
    && s.value == s.initial == s.stored && s.issued == []
    && s.channel == Channel(DEFAULT, 0, false) && s.seen == 0
    && s.writer == Waiting && s.lastWriteOk
  }

  predicate Enabled(s: State, step: Step) {
    match step
    case Increment(_) => !s.channel.closed
    case Close => !s.channel.closed
      // A change not yet seen is reported before the close is.
    case Wake => s.writer.Waiting? && (s.seen != s.channel.version || s.channel.closed)
    case Borrow => s.writer.Notified?
    case Apply(_) => s.writer.Applying?
  }

  function Next(s: State, step: Step): State
    requires Enabled(s, step)
  {
    match step
    case Increment(id) =>
      var v := ResultSequence(s.value.sequence + 1, id);
      s.(issued := s.issued + [v], value := v,
         channel := s.channel.(value := v, version := s.channel.version + 1))
    case Close => s.(channel := s.channel.(closed := true))
    case Wake => s.(writer := Notified(s.seen == s.channel.version), seen := s.channel.version)
    case Borrow => s.(writer := Applying(s.channel.value, s.writer.closing))
    case Apply(ok) =>
      s.(stored := if ok then s.writer.latest else s.stored, lastWriteOk := ok,
         writer := if s.writer.closing then Finished else Waiting)
  }

  /** Number and change id were given out together. */
  predicate Issued(s: State, v: ResultSequence) {
    v in s.issued
  }

  /** The numbers given out follow the initial one without a gap. */
  ghost predicate Numbered(s: State) {
    && |s.issued| == s.channel.version
    && (forall i :: 0 <= i < |s.issued| ==> s.issued[i].sequence == s.initial.sequence + i + 1)
    && s.value == if s.issued == [] then s.initial else s.issued[|s.issued| - 1]
  }

  ghost predicate Inv(s: State) {
    && Numbered(s)
    && s.channel.value == (if s.channel.version == 0 then DEFAULT else s.value)
    && s.seen <= s.channel.version
    && (if s.channel.version == 0
        then s.stored == s.initial || (s.writer.Finished? && s.stored == DEFAULT)
        else (s.stored == s.initial || Issued(s, s.stored)))
    && (match s.writer
        case Waiting => true
        case Notified(closing) =>
          if closing then s.channel.closed && s.seen == s.channel.version else s.seen > 0
        case Applying(latest, closing) =>
          && (if closing then s.channel.closed && latest == s.channel.value else s.seen > 0)
          && (s.channel.version > 0 ==> Issued(s, latest) && s.stored.sequence <= latest.sequence)
        case Finished => s.channel.closed && (s.lastWriteOk ==> s.stored == s.channel.value))
  }

  /** An issued number lies between the initial and the current one. */
  lemma IssuedBetween(s: State, v: ResultSequence)
    requires Numbered(s) && Issued(s, v)
    ensures s.initial.sequence < v.sequence <= s.value.sequence
  {
  }

  lemma StepKeeps(s: State, step: Step)
    requires Inv(s) && Enabled(s, step)
    ensures Inv(Next(s, step))
  {
    if Issued(s, s.stored) {
      IssuedBetween(s, s.stored);
    }
    if step.Increment? {
      var s' := Next(s, step);
      assert s'.issued[|s.issued|] in s'.issued;
    } else if s.issued != [] {
      assert s.value in s.issued;
    }
  }

  ghost predicate IsRun(states: seq<State>, steps: seq<Step>) {
    && |states| == |steps| + 1 && Init(states[0])
    && forall i :: 0 <= i < |steps| ==> Enabled(states[i], steps[i]) && states[i + 1] == Next(states[i], steps[i])
  }

  lemma {:induction false} RunKeeps(states: seq<State>, steps: seq<Step>, i: nat)
    requires IsRun(states, steps) && i < |states|
    ensures Inv(states[i]) && states[i].initial == states[0].initial
  {
    if i > 0 {
      RunKeeps(states, steps, i - 1);
      StepKeeps(states[i - 1], steps[i - 1]);
    }
  }

  /**
   While numbers are being issued, what is stored is the initial number or an issued one, together
   with the change it was issued for.
   */
  lemma StoredIsIssued(states: seq<State>, steps: seq<Step>, i: nat)
    requires IsRun(states, steps) && i < |states|
    requires states[i].channel.version > 0 || !states[i].channel.closed
    ensures states[i].stored == states[0].initial || Issued(states[i], states[i].stored)
    ensures Numbered(states[i])
  {
    RunKeeps(states, steps, i);
  }

  /** Stored numbers never decrease, from any point to any later one, if an increment comes before the close. */
  lemma {:induction false} StoredMonotone(states: seq<State>, steps: seq<Step>, i: nat, j: nat)
    requires IsRun(states, steps) && i <= j < |states|
    requires states[j].channel.version > 0
    ensures states[i].stored.sequence <= states[j].stored.sequence
    decreases j
  {
    if i < j {
      RunKeeps(states, steps, j - 1);
      assert states[j] == Next(states[j - 1], steps[j - 1]);
      if states[j - 1].channel.version > 0 {
        StoredMonotone(states, steps, i, j - 1);
      } else {
        NothingStored(states, steps, i, j - 1);
      }
    }
  }

  /** Before the first increment an open manager stores nothing. */
  lemma {:induction false} NothingStored(states: seq<State>, steps: seq<Step>, i: nat, j: nat)
    requires IsRun(states, steps) && i <= j < |states|
    requires states[j].channel.version == 0 && !states[j].channel.closed
    ensures states[i].stored == states[j].stored == states[0].initial
    decreases j
  {
    RunKeeps(states, steps, j);
    if i < j {
      assert states[j] == Next(states[j - 1], steps[j - 1]);
      NothingStored(states, steps, i, j - 1);
    }
  }

  /**
   When the writer has ended and its last write succeeded, the last issued number is what is stored,
   provided that any was issued; a manager closed without an increment overwrites the store with the
   default, which is right only if that was the initial value.
   */
  lemma ClosedStoresLast(states: seq<State>, steps: seq<Step>, i: nat)
    requires IsRun(states, steps) && i < |states|
    requires states[i].writer.Finished? && states[i].lastWriteOk
    ensures states[i].stored == states[i].value <==>
            states[i].issued != [] || states[0].initial == ResultSequence(0, "")
    ensures states[i].issued != [] ==> states[i].stored == states[i].issued[|states[i].issued| - 1]
  {
    RunKeeps(states, steps, i);
  }

  /** A run without an increment, which replaces whatever number was stored by the default. */
  lemma ClosedUnusedLosesNumber(initial: ResultSequence) returns (states: seq<State>, steps: seq<Step>)
    requires initial != ResultSequence(0, "")
    ensures IsRun(states, steps) && steps == [Close, Wake, Borrow, Apply(true)]
    ensures states[0].stored == initial && states[4].writer.Finished? && states[4].lastWriteOk
    ensures states[4].stored == ResultSequence(0, "") && states[4].value == initial
  {
    var s0 := State(initial, [], initial, Channel(DEFAULT, 0, false), 0, Waiting, initial, true);
    var s1 := Next(s0, Close);
    var s2 := Next(s1, Wake);
    var s3 := Next(s2, Borrow);
    states, steps := [s0, s1, s2, s3, Next(s3, Apply(true))], [Close, Wake, Borrow, Apply(true)];
  }

  /** The writer does end: once closed, each of its steps brings it closer to its end. */
  function WriterStepsLeft(s: State): nat {
    match s.writer
    case Finished => 0
    case Applying(_, closing) => if closing then 1 else if s.seen == s.channel.version then 4 else 7
    case Notified(closing) => if closing then 2 else if s.seen == s.channel.version then 5 else 8
    case Waiting => if s.seen == s.channel.version then 3 else 6
  }

  lemma WriterProgress(s: State, step: Step)
    requires Inv(s) && s.channel.closed && !s.writer.Finished?
    ensures exists w :: Enabled(s, w)
    ensures Enabled(s, step) ==> WriterStepsLeft(Next(s, step)) < WriterStepsLeft(s)
  {
    assert Enabled(s, Wake) || Enabled(s, Borrow) || Enabled(s, Apply(true));
  }
}
