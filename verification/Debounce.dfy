/**
 The monitor's handler: it reconciles a resource at its first event, and puts off further events of
 that resource until the next flush, which reconciles every resource seen since the last one. Time
 is in milliseconds. Calls may fail, which is only logged, and may take time.
 */
module Debounce {

  type Resource = (string, string)

  /** What happens, in order: events come in, resources are reconciled, the set is flushed. */
  datatype Item =
    | Received(resource: Resource)
    | Reconciled(resource: Resource, immediate: bool)
    | Flushed

  datatype State = State(
    debounceSet: set<Resource>,
    lastDebounce: nat,
    now: nat,
    selecting: bool,          // waiting for an event, rather than at the top of the loop
    trace: seq<Item>)

  const DEBOUNCE: nat := 1500
  const SLEEP: nat := 500

  datatype Step =
    | Top(order: seq<Resource>, cost: nat)         // the check at the top; `order` is how the set drains
    | Sleep
    | Event(resource: Resource, wait: nat, cost: nat)

  predicate Due(s: State) { s.now - s.lastDebounce > DEBOUNCE }

  ghost predicate Drains(order: seq<Resource>, resources: set<Resource>) {
    && (forall r :: r in order <==> r in resources)
    && forall i, j :: 0 <= i < j < |order| ==> order[i] != order[j]
  }

  function Reconciles(order: seq<Resource>): seq<Item> {
    seq(|order|, i requires 0 <= i < |order| => Reconciled(order[i], false))
  }

  ghost predicate Enabled(s: State, step: Step) {
    match step
    case Top(order, _) => !s.selecting && s.now >= s.lastDebounce && (Due(s) ==> Drains(order, s.debounceSet))
    case Sleep => s.selecting
    case Event(_, wait, _) => s.selecting && wait <= SLEEP
  }

  function Next(s: State, step: Step): State
  {
    match step
    case Top(order, cost) =>
      if Due(s) then
        s.(debounceSet := {}, now := s.now + cost, lastDebounce := s.now + cost, selecting := true,
           trace := s.trace + Reconciles(order) + [Flushed])
      else s.(selecting := true)
    case Sleep => s.(now := s.now + SLEEP, selecting := false)
    case Event(r, wait, cost) =>
      if r in s.debounceSet then s.(now := s.now + wait, selecting := false, trace := s.trace + [Received(r)])
      else s.(now := s.now + wait + cost, selecting := false, debounceSet := s.debounceSet + {r},
              trace := s.trace + [Received(r), Reconciled(r, true)])
  }

  predicate Init(s: State) {
    s.debounceSet == {} && s.lastDebounce == s.now && !s.selecting && s.trace == []
  }

  // ---- The handler ----

  class Handler {
    var debounceSet: set<Resource>
    var lastDebounce: nat
    var now: nat
    var selecting: bool
    ghost var trace: seq<Item>

    ghost function TheState(): State
      reads this
    {
      State(debounceSet, lastDebounce, now, selecting, trace)
    }

    constructor (start: nat)
      ensures Init(TheState())
    {
      debounceSet, lastDebounce, now, selecting, trace := {}, start, start, false, [];
    }

    /** Drains the set when it is due, reconciling each resource once; `cost` is the time that takes. */
    method TopOfLoop(cost: nat)
      requires !selecting && now >= lastDebounce
      modifies this
      ensures exists order ::
                Enabled(old(TheState()), Top(order, cost)) && TheState() == Next(old(TheState()), Top(order, cost))
      ensures selecting
      ensures old(now - lastDebounce) > 1500 ==>
                && debounceSet == {} && now == lastDebounce == old(now) + cost
                && exists order :: Drains(order, old(debounceSet)) && trace == old(trace) + Reconciles(order) + [Flushed]
      ensures old(now - lastDebounce) <= 1500 ==>
                debounceSet == old(debounceSet) && now == old(now) && lastDebounce == old(lastDebounce) && trace == old(trace)
    {
      ghost var order: seq<Resource> := [];
      if now - lastDebounce > DEBOUNCE {
        while debounceSet != {}
          invariant debounceSet <= old(debounceSet)
          invariant Drains(order, old(debounceSet) - debounceSet)
          invariant trace == old(trace) + Reconciles(order)
          invariant now == old(now) && lastDebounce == old(lastDebounce) && !selecting
          decreases debounceSet
        {
          var r :| r in debounceSet;
          debounceSet := debounceSet - {r};
          order := order + [r];
          trace := trace + [Reconciled(r, false)];
        }
        now := now + cost;
        lastDebounce := now;
        trace := trace + [Flushed];
      }
      selecting := true;
      assert Enabled(old(TheState()), Top(order, cost));
      assert TheState() == Next(old(TheState()), Top(order, cost));
    }

    method SleepOver()
      requires selecting
      modifies this
      ensures TheState() == Next(old(TheState()), Sleep)
      ensures now == old(now) + 500 && !selecting && unchanged(this`debounceSet, this`lastDebounce, this`trace)
    {
      now := now + SLEEP;
      selecting := false;
    }

    /** The first event of a resource since the flush reconciles it at once. */
    method HandleEvent(r: Resource, wait: nat, cost: nat)
      requires selecting && wait <= 500
      modifies this
      ensures TheState() == Next(old(TheState()), Event(r, wait, cost))
      ensures !selecting && lastDebounce == old(lastDebounce) && debounceSet == old(debounceSet) + {r}
      ensures r in old(debounceSet) ==> now == old(now) + wait && trace == old(trace) + [Received(r)]
      ensures r !in old(debounceSet) ==>
                now == old(now) + wait + cost && trace == old(trace) + [Received(r), Reconciled(r, true)]
    {
      now := now + wait;
      selecting := false;
      trace := trace + [Received(r)];
      if r in debounceSet {
        return;
      }
      trace := trace + [Reconciled(r, true)];
      now := now + cost;
      debounceSet := debounceSet + {r};
    }
  }

  // ---- Invariants ----

  /** From position i on, the resource is reconciled. */
  predicate ReconciledAfter(trace: seq<Item>, i: nat, r: Resource) {
    exists j :: i < j < |trace| && trace[j].Reconciled? && trace[j].resource == r
  }

  /** Immediate reconciles of a resource since the last flush. */
  function ImmediateSinceFlush(trace: seq<Item>, r: Resource): nat {
    if trace == [] || trace[|trace| - 1].Flushed? then 0
    else
      ImmediateSinceFlush(trace[..|trace| - 1], r) + if trace[|trace| - 1] == Reconciled(r, true) then 1 else 0
  }

  ghost predicate Inv(s: State) {
    && s.lastDebounce <= s.now
    && (forall i :: 0 <= i < |s.trace| && s.trace[i].Received? ==>
          ReconciledAfter(s.trace, i, s.trace[i].resource) || s.trace[i].resource in s.debounceSet)
    && (forall r: Resource :: ImmediateSinceFlush(s.trace, r) == if r in s.debounceSet then 1 else 0)
  }

  lemma ReconciledStays(trace: seq<Item>, more: seq<Item>, i: nat, r: Resource)
    requires ReconciledAfter(trace, i, r)
    ensures ReconciledAfter(trace + more, i, r)
  {
    var j :| i < j < |trace| && trace[j].Reconciled? && trace[j].resource == r;
    assert (trace + more)[j] == trace[j];
  }

  /** A flush reconciles every received event that was put off. */
  lemma FlushReconciles(s: State, order: seq<Resource>, cost: nat)
    requires Inv(s) && Enabled(s, Top(order, cost)) && Due(s)
    ensures var s' := Next(s, Top(order, cost));
            forall i :: 0 <= i < |s'.trace| && s'.trace[i].Received? ==> ReconciledAfter(s'.trace, i, s'.trace[i].resource)
  {
    var s' := Next(s, Top(order, cost));
    var more := Reconciles(order) + [Flushed];
    assert s'.trace == s.trace + more;
    forall i | 0 <= i < |s'.trace| && s'.trace[i].Received? ensures ReconciledAfter(s'.trace, i, s'.trace[i].resource) {
      assert i < |s.trace| && s'.trace[i] == s.trace[i];
      var r := s.trace[i].resource;
      if ReconciledAfter(s.trace, i, r) {
        ReconciledStays(s.trace, more, i, r);
      } else {
        var k :| 0 <= k < |order| && order[k] == r;
        assert s'.trace[|s.trace| + k] == Reconciled(r, false);
      }
    }
  }

  lemma SleepKeeps(s: State)
    requires Inv(s)
    ensures Inv(Next(s, Sleep))
  {
    forall i | 0 <= i < |s.trace| && s.trace[i].Received?
      ensures ReconciledAfter(s.trace, i, s.trace[i].resource) || s.trace[i].resource in s.debounceSet
    {
    }
  }

  lemma TopKeeps(s: State, order: seq<Resource>, cost: nat)
    requires Inv(s) && Enabled(s, Top(order, cost))
    ensures Inv(Next(s, Top(order, cost)))
  {
    if Due(s) {
      FlushReconciles(s, order, cost);
      var s' := Next(s, Top(order, cost));
      assert s'.trace[|s'.trace| - 1] == Flushed;
    }
  }

  lemma EventKeeps(s: State, r: Resource, wait: nat, cost: nat)
    requires Inv(s)
    ensures Inv(Next(s, Event(r, wait, cost)))
  {
    var s' := Next(s, Event(r, wait, cost));
    var more := if r in s.debounceSet then [Received(r)] else [Received(r), Reconciled(r, true)];
    assert s'.trace == s.trace + more;
    forall i | 0 <= i < |s'.trace| && s'.trace[i].Received?
      ensures ReconciledAfter(s'.trace, i, s'.trace[i].resource) || s'.trace[i].resource in s'.debounceSet
    {
      if i < |s.trace| {
        assert s'.trace[i] == s.trace[i];
        if ReconciledAfter(s.trace, i, s.trace[i].resource) {
          ReconciledStays(s.trace, more, i, s.trace[i].resource);
        }
      }
    }
    forall q: Resource ensures ImmediateSinceFlush(s'.trace, q) == if q in s'.debounceSet then 1 else 0 {
      assert (s.trace + [Received(r)])[..|s.trace|] == s.trace;
      assert ImmediateSinceFlush(s.trace + [Received(r)], q) == ImmediateSinceFlush(s.trace, q);
      if r !in s.debounceSet {
        assert s'.trace[..|s.trace| + 1] == s.trace + [Received(r)];
      }
    }
  }

  // ---- Runs ----

  ghost predicate IsRun(states: seq<State>, steps: seq<Step>) {
    && |states| == |steps| + 1 && Init(states[0])
    && forall i :: 0 <= i < |steps| ==> Enabled(states[i], steps[i]) && states[i + 1] == Next(states[i], steps[i])
  }

  lemma {:induction false} RunKeeps(states: seq<State>, steps: seq<Step>, i: nat)
    requires IsRun(states, steps) && i < |states|
    ensures Inv(states[i])
  {
    if i > 0 {
      RunKeeps(states, steps, i - 1);
      match steps[i - 1]
      case Top(order, cost) => TopKeeps(states[i - 1], order, cost);
      case Sleep => SleepKeeps(states[i - 1]);
      case Event(r, wait, cost) => EventKeeps(states[i - 1], r, wait, cost);
    }
  }

  /** After every flush, each event received so far has been followed by a reconcile of its resource. */
  lemma NothingLost(states: seq<State>, steps: seq<Step>, i: nat)
    requires IsRun(states, steps) && i < |steps| && steps[i].Top? && Due(states[i])
    ensures var trace := states[i + 1].trace;
            forall k :: 0 <= k < |trace| && trace[k].Received? ==> ReconciledAfter(trace, k, trace[k].resource)
  {
    RunKeeps(states, steps, i);
    FlushReconciles(states[i], steps[i].order, steps[i].cost);
  }

  /** Between flushes a resource is reconciled at once at most one time, namely if it is in the set. */
  lemma OneImmediate(states: seq<State>, steps: seq<Step>, i: nat, r: Resource)
    requires IsRun(states, steps) && i < |states|
    ensures ImmediateSinceFlush(states[i].trace, r) == if r in states[i].debounceSet then 1 else 0
  {
    RunKeeps(states, steps, i);
  }

  /** Calls that take no time. */
  ghost predicate Instantaneous(steps: seq<Step>) {
    forall step <- steps :: !step.Sleep? ==> step.cost == 0
  }

  /**
   With instantaneous calls a flush comes at most 2000 ms after the one before, and no wait starts
   later than 1500 ms after it.
   */
  lemma {:induction false} FlushInTime(states: seq<State>, steps: seq<Step>, i: nat)
    requires IsRun(states, steps) && Instantaneous(steps) && i < |states|
    ensures states[i].now - states[i].lastDebounce <= if states[i].selecting then 1500 else 2000
  {
    if i > 0 {
      FlushInTime(states, steps, i - 1);
      assert steps[i - 1] in steps;
    }
  }
}
