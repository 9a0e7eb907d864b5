/**
 One life of a query worker: an optional bootstrap, then running, then stopped. The life is driven
 by a script that says what the query's surroundings do: which initializations fail, what the sources
 deliver, which publications fail, which commands and messages arrive. Where the script ends, so does
 the observation of the life.
 */
module QueryWorker {
  import opened Wrappers
  import opened Results

  datatype QueryState = New | Configured | Bootstrapping | Running | Deleted | TerminalError | TransientError

  // ---- What the surroundings do ----

  datatype InitialItem = FetchError | ProcessError | Item

  datatype SourceFeed = SubscribeError | Feed(items: seq<InitialItem>)

  datatype Processing = Failed | Nothing | Results

  datatype Input =
    | ShutdownCommand
    | DeleteCommand
    | PauseCommand                       // not implemented: the worker's task ends at once
    | CommandsClosed
    | ReceiveError
    | ReceiveNone
    | Message(named: bool, outcome: Processing)

  datatype Script = Script(
    indexOk: bool, queryOk: bool, viewOk: bool, volatileStore: bool, sequenceOk: bool, streamOk: bool,
    sources: seq<SourceFeed>,
    failing: set<nat>,                   // sequence numbers whose publication fails
    inputs: seq<Input>)

  // ---- What the worker attempts to publish ----

  datatype Kind = Signal(signal: ControlSignal) | ResultChange

  datatype Attempt = Attempt(sequence: nat, kind: Kind)

  function Kinds(attempts: seq<Attempt>): seq<Kind> {
    seq(|attempts|, i requires 0 <= i < |attempts| => attempts[i].kind)
  }

  function Changes(n: nat): seq<Kind> { seq(n, _ => ResultChange) }

  /** A finished bootstrap with n changes, or none. */
  function Boot(boot: Option<nat>): seq<Kind> {
    match boot
    case None => []
    case Some(n) => [Signal(BootstrapStarted)] + Changes(n) + [Signal(BootstrapCompleted)]
  }

  /** How far a life has come. */
  datatype Shape =
    | Silent
    | InBootstrap(changes: nat)
    | Booted(changes: nat)
    | InRun(boot: Option<nat>, changes: nat)
    | Gone(boot: Option<nat>, changes: nat)
    | Over(boot: Option<nat>, changes: nat, deleted: bool)

  function Render(shape: Shape): seq<Kind> {
    match shape
    case Silent => []
    case InBootstrap(n) => [Signal(BootstrapStarted)] + Changes(n)
    case Booted(n) => Boot(Some(n))
    case InRun(boot, n) => Boot(boot) + [Signal(ControlSignal.Running)] + Changes(n)
    case Gone(boot, n) => Boot(boot) + [Signal(ControlSignal.Running)] + Changes(n) + [Signal(QueryDeleted)]
    case Over(boot, n, deleted) =>
      Boot(boot) + [Signal(ControlSignal.Running)] + Changes(n)
      + (if deleted then [Signal(QueryDeleted)] else []) + [Signal(Stopped)]
  }

  /** The publications of a complete life: [start change* complete] running change* [deleted] stopped. */
  ghost predicate CompleteLife(kinds: seq<Kind>) {
    exists boot, n, deleted :: kinds == Render(Over(boot, n, deleted))
  }

  ghost predicate LifeSoFar(kinds: seq<Kind>) {
    exists shape :: kinds == Render(shape)
  }

  /** The shapes are exactly the prefixes of complete lives. */
  lemma ShapesArePrefixes(kinds: seq<Kind>)
    ensures LifeSoFar(kinds) <==> exists full :: CompleteLife(full) && kinds <= full
  {
    if LifeSoFar(kinds) {
      var shape :| kinds == Render(shape);
      var full := Render(Whole(shape));
      ShapeExtends(shape);
      assert CompleteLife(full) by {
        var Over(boot, n, deleted) := Whole(shape);
      }
    }
    forall full | CompleteLife(full) && kinds <= full ensures LifeSoFar(kinds) {
      var boot, n, deleted :| full == Render(Over(boot, n, deleted));
      var shape := PrefixShape(boot, n, deleted, |kinds|);
    }
  }

  /** One complete life that goes on from here. */
  function Whole(shape: Shape): (r: Shape)
    ensures r.Over?
  {
    match shape
    case Silent => Over(None, 0, false)
    case InBootstrap(n) => Over(Some(n), 0, false)
    case Booted(n) => Over(Some(n), 0, false)
    case InRun(boot, n) => Over(boot, n, false)
    case Gone(boot, n) => Over(boot, n, true)
    case Over(_, _, _) => shape
  }

  lemma ShapeExtends(shape: Shape)
    ensures Render(shape) <= Render(Whole(shape))
  {
  }

  lemma PrefixShape(boot: Option<nat>, n: nat, deleted: bool, len: nat) returns (shape: Shape)
    requires len <= |Render(Over(boot, n, deleted))|
    ensures Render(Over(boot, n, deleted))[..len] == Render(shape)
  {
    var full, b := Render(Over(boot, n, deleted)), |Boot(boot)|;
    if len == 0 {
      shape := Silent;
    } else if len < b {
      shape := InBootstrap(len - 1);
    } else if len == b {
      shape := Booted(boot.value);
    } else if len <= b + 1 + n {
      shape := InRun(boot, len - b - 1);
    } else if len < |full| {
      shape := Gone(boot, n);
    } else {
      shape := Over(boot, n, deleted);
    }
    assert full[..len] == Render(shape);
  }

  // ---- The same lives, as an automaton sees them ----

  datatype Phase = Unstarted | Filling | Filled | Live | Removed | Finished

  function Advance(phase: Phase, kind: Kind): Option<Phase> {
    match (phase, kind)
    case (Unstarted, Signal(BootstrapStarted)) => Some(Filling)
    case (Filling, ResultChange) => Some(Filling)
    case (Filling, Signal(BootstrapCompleted)) => Some(Filled)
    case (Unstarted, Signal(Running)) => Some(Live)
    case (Filled, Signal(Running)) => Some(Live)
    case (Live, ResultChange) => Some(Live)
    case (Live, Signal(QueryDeleted)) => Some(Removed)
    case (Live, Signal(Stopped)) => Some(Finished)
    case (Removed, Signal(Stopped)) => Some(Finished)
    case _ => None
  }

  /** Where the publications lead, if each of them may follow those before it. */
  function Walk(kinds: seq<Kind>): Option<Phase> {
    if kinds == [] then Some(Unstarted)
    else
      match Walk(kinds[..|kinds| - 1])
      case None => None
      case Some(phase) => Advance(phase, kinds[|kinds| - 1])
  }

  function PhaseOf(shape: Shape): Phase {
    match shape
    case Silent => Unstarted
    case InBootstrap(_) => Filling
    case Booted(_) => Filled
    case InRun(_, _) => Live
    case Gone(_, _) => Removed
    case Over(_, _, _) => Finished
  }

  /** The shape before the last publication, and that publication. */
  function LastOf(shape: Shape): (Shape, Kind)
    requires !shape.Silent?
  {
    match shape
    case InBootstrap(n) => if n == 0 then (Silent, Signal(BootstrapStarted)) else (InBootstrap(n - 1), ResultChange)
    case Booted(n) => (InBootstrap(n), Signal(BootstrapCompleted))
    case InRun(boot, n) =>
      if n > 0 then (InRun(boot, n - 1), ResultChange)
      else (if boot.Some? then Booted(boot.value) else Silent, Signal(ControlSignal.Running))
    case Gone(boot, n) => (InRun(boot, n), Signal(QueryDeleted))
    case Over(boot, n, deleted) => (if deleted then Gone(boot, n) else InRun(boot, n), Signal(Stopped))
  }

  lemma LastRendered(shape: Shape)
    requires !shape.Silent?
    ensures Render(shape) == Render(LastOf(shape).0) + [LastOf(shape).1]
  {
    hide Render, Boot;
    match shape
    case InBootstrap(n) => ShapeSteps(None, if n == 0 then 0 else n - 1);
    case Booted(n) => ShapeSteps(None, n);
    case InRun(boot, n) =>
      ShapeSteps(boot, if n == 0 then 0 else n - 1);
      if boot.Some? {
        ShapeSteps(None, boot.value);
      }
    case Gone(boot, n) => ShapeSteps(boot, n);
    case Over(boot, n, _) => ShapeSteps(boot, n);
  }

  lemma LastAdvances(shape: Shape)
    requires !shape.Silent?
    ensures Advance(PhaseOf(LastOf(shape).0), LastOf(shape).1) == Some(PhaseOf(shape))
  {
  }

  lemma {:induction false} ShapeWalks(shape: Shape)
    ensures Walk(Render(shape)) == Some(PhaseOf(shape))
    decreases |Render(shape)|
  {
    if !shape.Silent? {
      var before, kind := LastOf(shape).0, LastOf(shape).1;
      LastRendered(shape);
      LastAdvances(shape);
      hide Render, Advance, PhaseOf, LastOf;
      assert Render(shape)[..|Render(shape)| - 1] == Render(before);
      ShapeWalks(before);
    }
  }

  /** The shape after one more publication, if the automaton admits it. */
  function Grown(shape: Shape, kind: Kind): Shape {
    match shape
    case Silent => if kind == Signal(BootstrapStarted) then InBootstrap(0) else InRun(None, 0)
    case InBootstrap(n) => if kind == ResultChange then InBootstrap(n + 1) else Booted(n)
    case Booted(n) => InRun(Some(n), 0)
    case InRun(boot, n) =>
      if kind == ResultChange then InRun(boot, n + 1)
      else if kind == Signal(QueryDeleted) then Gone(boot, n) else Over(boot, n, false)
    case Gone(boot, n) => Over(boot, n, true)
    case Over(_, _, _) => shape
  }

  lemma Grows(shape: Shape, kind: Kind)
    requires Advance(PhaseOf(shape), kind).Some?
    ensures LastOf(Grown(shape, kind)) == (shape, kind) && Advance(PhaseOf(shape), kind) == Some(PhaseOf(Grown(shape, kind)))
  {
  }

  lemma {:induction false} WalkShapes(kinds: seq<Kind>) returns (shape: Shape)
    requires Walk(kinds).Some?
    ensures kinds == Render(shape) && PhaseOf(shape) == Walk(kinds).value
    decreases |kinds|
  {
    if kinds == [] {
      shape := Silent;
    } else {
      var kind := kinds[|kinds| - 1];
      var before := WalkShapes(kinds[..|kinds| - 1]);
      hide Advance, PhaseOf, LastOf, Grown, Render;
      Grows(before, kind);
      shape := Grown(before, kind);
      LastRendered(shape);
      assert kinds == kinds[..|kinds| - 1] + [kind];
    }
  }

  /** Complete lives are the words of the automaton, and lives so far those that it has not refused. */
  lemma LivesAreWords(kinds: seq<Kind>)
    ensures LifeSoFar(kinds) <==> Walk(kinds).Some?
    ensures CompleteLife(kinds) <==> Walk(kinds) == Some(Finished)
  {
    hide Render, Walk;
    forall shape | kinds == Render(shape) ensures Walk(kinds) == Some(PhaseOf(shape)) {
      ShapeWalks(shape);
    }
    if Walk(kinds).Some? {
      var shape := WalkShapes(kinds);
      assert shape.Over? ==> kinds == Render(Over(shape.boot, shape.changes, shape.deleted));
    }
  }

  // ---- What a script leads to ----

  function Items(sources: seq<SourceFeed>): nat {
    if sources == [] then 0
    else Items(sources[..|sources| - 1]) + if sources[|sources| - 1].Feed? then |sources[|sources| - 1].items| else 0
  }

  /** What the sources yield, one after the other; a refused subscription counts as a failed item. */
  function Yield(sources: seq<SourceFeed>): seq<InitialItem> {
    if sources == [] then []
    else
      var last := sources[|sources| - 1];
      Yield(sources[..|sources| - 1]) + if last.Feed? then last.items else [FetchError]
  }

  predicate AllDelivered(sources: seq<SourceFeed>) {
    forall f <- sources :: f.Feed? && forall x <- f.items :: x.Item?
  }

  /** Everything arrives, and none of the numbers that the bootstrap takes fails to publish. */
  predicate BootstrapSucceeds(sources: seq<SourceFeed>, failing: set<nat>, stored: nat) {
    && AllDelivered(sources)
    && forall k: nat | stored < k <= stored + Items(sources) + 2 :: k !in failing
  }

  /** How the message loop ends: result publications so far, whether it is left and how, and the query's state. */
  datatype Ending = Ending(changes: nat, deleted: bool, stopping: bool, state: QueryState)

  function LoopEnding(inputs: seq<Input>, failing: set<nat>, sequence: nat): (e: Ending)
    ensures e.deleted ==> e.stopping
  {
    if inputs == [] then Ending(0, false, false, QueryState.Running)
    else match inputs[0]
      case ShutdownCommand => Ending(0, false, true, QueryState.Running)
      case DeleteCommand => Ending(0, true, true, QueryState.Running)
      case PauseCommand => Ending(0, false, false, QueryState.Running)
      case CommandsClosed => Ending(0, false, true, TerminalError)
      case ReceiveError => Ending(0, false, true, TransientError)
      case ReceiveNone => LoopEnding(inputs[1..], failing, sequence)
      case Message(named, outcome) =>
        if !named || outcome.Nothing? then LoopEnding(inputs[1..], failing, sequence)
        else if outcome.Failed? then Ending(0, false, true, TransientError)
        else if sequence + 1 in failing then Ending(1, false, true, TransientError)
        else After(1, LoopEnding(inputs[1..], failing, sequence + 1))
  }

  /** 1 if the input leads to a publication. */
  function Reports(input: Input): nat {
    if input.Message? && input.named && input.outcome.Results? then 1 else 0
  }

  /** How many of the inputs lead to a publication. */
  function Reporting(inputs: seq<Input>): nat {
    if inputs == [] then 0
    else
      Reporting(inputs[..|inputs| - 1]) + Reports(inputs[|inputs| - 1])
  }

  /** An input after which the loop goes on, when its publication, if it has one, takes the number given. */
  predicate Quiet(input: Input, failing: set<nat>, number: nat) {
    match input
    case ReceiveNone => true
    case Message(named, outcome) => !named || outcome.Nothing? || (outcome.Results? && number !in failing)
    case _ => false
  }

  /** The input at k and all before it let the loop go on. */
  predicate QuietUpTo(inputs: seq<Input>, failing: set<nat>, sequence: nat, k: nat)
    requires k <= |inputs|
  {
    forall j :: 0 <= j < k ==> Quiet(inputs[j], failing, sequence + Reporting(inputs[..j]) + 1)
  }

  lemma QuietHead(inputs: seq<Input>, failing: set<nat>, sequence: nat)
    requires inputs != [] && Quiet(inputs[0], failing, sequence + 1)
    ensures LoopEnding(inputs, failing, sequence) ==
            After(Reports(inputs[0]), LoopEnding(inputs[1..], failing, sequence + Reports(inputs[0])))
  {
  }

  lemma {:induction false} QuietThrough(inputs: seq<Input>, failing: set<nat>, sequence: nat, k: nat)
    requires k <= |inputs| && QuietUpTo(inputs, failing, sequence, k)
    ensures LoopEnding(inputs, failing, sequence) ==
            After(Reporting(inputs[..k]), LoopEnding(inputs[k..], failing, sequence + Reporting(inputs[..k])))
    decreases k
  {
    if k == 0 {
      assert inputs[0..] == inputs;
    } else {
      var number := sequence + Reporting(inputs[..k - 1]);
      QuietThrough(inputs, failing, sequence, k - 1);
      assert Quiet(inputs[k - 1], failing, number + 1);
      QuietHead(inputs[k - 1..], failing, number);
      assert inputs[..k][..k - 1] == inputs[..k - 1] && inputs[k - 1..][1..] == inputs[k..];
      hide Reports, Quiet, LoopEnding;
    }
  }

  /**
   The first input that does not let the loop go on decides how it ends; without one it goes on.
   Each message with results before it takes a number, and so does the one whose publication fails.
   */
  lemma LoopEndingExact(inputs: seq<Input>, failing: set<nat>, sequence: nat, k: nat)
    requires k <= |inputs| && QuietUpTo(inputs, failing, sequence, k)
    requires k < |inputs| ==> !Quiet(inputs[k], failing, sequence + Reporting(inputs[..k]) + 1)
    ensures var e, n := LoopEnding(inputs, failing, sequence), Reporting(inputs[..k]);
            if k == |inputs| then e == Ending(n, false, false, QueryState.Running)
            else match inputs[k]
              case ShutdownCommand => e == Ending(n, false, true, QueryState.Running)
              case DeleteCommand => e == Ending(n, true, true, QueryState.Running)
              case PauseCommand => e == Ending(n, false, false, QueryState.Running)
              case CommandsClosed => e == Ending(n, false, true, TerminalError)
              case Message(_, outcome) => e == Ending(if outcome.Results? then n + 1 else n, false, true, TransientError)
              case _ => e == Ending(n, false, true, TransientError)
  {
    QuietThrough(inputs, failing, sequence, k);
    assert k < |inputs| ==> inputs[k..][0] == inputs[k];
  }

  function After(changes: nat, e: Ending): Ending { e.(changes := changes + e.changes) }

  predicate Initialized(script: Script) {
    script.indexOk && script.queryOk && script.viewOk && script.sequenceOk
  }

  predicate Bootstraps(lifecycle: QueryState, script: Script) {
    lifecycle.Configured? || lifecycle.Bootstrapping? || (lifecycle.Running? && script.volatileStore)
  }

  predicate RunsOn(lifecycle: QueryState, script: Script, stored: nat) {
    && Initialized(script) && !lifecycle.TerminalError? && script.streamOk
    && (Bootstraps(lifecycle, script) ==> BootstrapSucceeds(script.sources, script.failing, stored))
  }

  function RunShape(boot: Option<nat>, e: Ending): Shape {
    if e.stopping then Over(boot, e.changes, e.deleted) else InRun(boot, e.changes)
  }

  /** The publications of a life that gets to run. */
  function LifeOf(lifecycle: QueryState, script: Script, stored: nat): seq<Kind> {
    var boot := if Bootstraps(lifecycle, script) then Some(Items(script.sources)) else None;
    Render(RunShape(boot, LoopEnding(script.inputs, script.failing, stored + |Boot(boot)| + 1)))
  }

  /** The state a life leaves the query in. */
  function FinalState(lifecycle: QueryState, script: Script, stored: nat): QueryState {
    if !script.indexOk then TransientError
    else if !script.queryOk then TerminalError
    else if !script.viewOk || !script.sequenceOk then TransientError
    else if Bootstraps(lifecycle, script) && !BootstrapSucceeds(script.sources, script.failing, stored) then TerminalError
    else if lifecycle.TerminalError? then TerminalError
    else if !script.streamOk then TransientError
    else
      var boot := if Bootstraps(lifecycle, script) then Some(Items(script.sources)) else None;
      LoopEnding(script.inputs, script.failing, stored + |Boot(boot)| + 1).state
  }

  lemma {:induction false} YieldStep(sources: seq<SourceFeed>, i: nat)
    requires i < |sources|
    ensures Yield(sources[..i + 1]) ==
            Yield(sources[..i]) + if sources[i].Feed? then sources[i].items else [FetchError]
    ensures Yield(sources[..i + 1]) <= Yield(sources)
    decreases |sources| - i
  {
    assert sources[..i + 1][..i] == sources[..i];
    if i + 1 < |sources| {
      YieldStep(sources, i + 1);
    } else {
      assert sources[..i + 1] == sources;
    }
  }

  /** Where the items of the i-th source stand. */
  lemma YieldAt(sources: seq<SourceFeed>, i: nat)
    requires i < |sources|
    ensures var all, at := Yield(sources), |Yield(sources[..i])|;
            match sources[i]
            case SubscribeError => at < |all| && all[at] == FetchError
            case Feed(items) =>
              && |Yield(sources[..i + 1])| == at + |items| <= |all|
              && forall j :: 0 <= j < |items| ==> all[at + j] == items[j]
  {
    YieldStep(sources, i);
    hide Yield;
    var all, at, through := Yield(sources), |Yield(sources[..i])|, Yield(sources[..i + 1]);
    assert forall j :: at <= j < |through| ==> all[j] == through[j];
  }

  lemma YieldEnds(sources: seq<SourceFeed>)
    ensures Yield(sources[..0]) == [] && Yield(sources[..|sources|]) == Yield(sources)
  {
    assert sources[..|sources|] == sources;
  }

  lemma {:induction false} YieldDelivered(sources: seq<SourceFeed>)
    ensures AllDelivered(sources) <==> forall x <- Yield(sources) :: x.Item?
    ensures AllDelivered(sources) ==> |Yield(sources)| == Items(sources)
    decreases |sources|
  {
    if sources != [] {
      var n := |sources| - 1;
      var last := if sources[n].Feed? then sources[n].items else [FetchError];
      YieldDelivered(sources[..n]);
      assert sources == sources[..n] + [sources[n]];
      assert FetchError in [FetchError];
      assert forall x :: x in Yield(sources) <==> x in Yield(sources[..n]) || x in last;
    }
  }

  /**
   Where a bootstrap is given up, with `last` as its last number: at the first item that fails, or at
   the first number whose publication fails, that of the closing signal included.
   */
  predicate StopsAt(sources: seq<SourceFeed>, failing: set<nat>, stored: nat, changes: nat, last: nat) {
    && changes <= |Yield(sources)| && (forall j :: 0 <= j < changes ==> Yield(sources)[j].Item?)
    && (forall k: nat | stored < k < last :: k !in failing)
    && (if last == stored + 1 + changes then
          last in failing || (changes < |Yield(sources)| && !Yield(sources)[changes].Item?)
        else
          last == stored + 2 + changes && last in failing && changes == |Yield(sources)|)
  }

  /** Nothing more was attempted, for a reason, and so the bootstrap does not succeed. */
  lemma GivenUp(sources: seq<SourceFeed>, failing: set<nat>, stored: nat, changes: nat)
    requires changes <= |Yield(sources)| && forall j :: 0 <= j < changes ==> Yield(sources)[j].Item?
    requires forall k: nat | stored < k <= stored + changes :: k !in failing
    requires stored + 1 + changes in failing || (changes < |Yield(sources)| && !Yield(sources)[changes].Item?)
    ensures StopsAt(sources, failing, stored, changes, stored + 1 + changes)
    ensures !BootstrapSucceeds(sources, failing, stored)
  {
    YieldDelivered(sources);
    hide Yield, Items, AllDelivered;
    if changes < |Yield(sources)| {
      assert Yield(sources)[changes] in Yield(sources);
    }
  }

  /** After the last item only the closing signal can fail. */
  lemma FilledUp(sources: seq<SourceFeed>, failing: set<nat>, stored: nat, changes: nat)
    requires changes == |Yield(sources)| && forall j :: 0 <= j < changes ==> Yield(sources)[j].Item?
    requires forall k: nat | stored < k <= stored + 1 + changes :: k !in failing
    ensures changes == Items(sources)
    ensures BootstrapSucceeds(sources, failing, stored) <==> stored + 2 + changes !in failing
    ensures stored + 2 + changes in failing ==> StopsAt(sources, failing, stored, changes, stored + 2 + changes)
  {
    YieldDelivered(sources);
    hide Yield, Items, AllDelivered;
  }

  /** How each publication takes a life from one shape to the next. */
  lemma ShapeSteps(boot: Option<nat>, n: nat)
    ensures Render(Silent) == [] == Boot(None) && Kinds([]) == []
    ensures Render(Silent) + [Signal(BootstrapStarted)] == Render(InBootstrap(0))
    ensures Render(InBootstrap(n)) + [ResultChange] == Render(InBootstrap(n + 1))
    ensures Render(InBootstrap(n)) + [Signal(BootstrapCompleted)] == Render(Booted(n)) == Boot(Some(n))
    ensures Boot(boot) + [Signal(ControlSignal.Running)] == Render(InRun(boot, 0))
    ensures Render(InRun(boot, n)) + [ResultChange] == Render(InRun(boot, n + 1))
    ensures Render(InRun(boot, n)) + [Signal(QueryDeleted)] == Render(Gone(boot, n))
    ensures Render(InRun(boot, n)) + [Signal(Stopped)] == Render(Over(boot, n, false))
    ensures Render(Gone(boot, n)) + [Signal(Stopped)] == Render(Over(boot, n, true))
  {
  }

  /** Which signals a life so far contains. */
  lemma SignalsInside(boot: Option<nat>, n: nat)
    ensures var started, running := Signal(BootstrapStarted), Signal(ControlSignal.Running);
            && started == Render(InBootstrap(n))[0] == Render(Booted(n))[0]
            && started in Render(InBootstrap(n)) && running !in Render(InBootstrap(n))
            && started in Render(Booted(n)) && running !in Render(Booted(n))
            && (started in Boot(boot) <==> boot.Some?) && running !in Boot(boot)
            && (boot.Some? ==> Boot(boot)[0] == started)
  {
    var started := Signal(BootstrapStarted);
    assert Render(InBootstrap(n))[0] == started && Render(Booted(n))[0] == started;
    assert boot.Some? ==> Boot(boot)[0] == started;
  }

  lemma SignalsInRun(boot: Option<nat>, e: Ending)
    ensures var kinds := Render(RunShape(boot, e));
            && (Signal(BootstrapStarted) in kinds <==> boot.Some?)
            && (boot.Some? ==> kinds[0] == Signal(BootstrapStarted))
            && Signal(ControlSignal.Running) in kinds
  {
    var kinds := Render(RunShape(boot, e));
    assert kinds[|Boot(boot)|] == Signal(ControlSignal.Running);
    assert boot.Some? ==> kinds[0] == Signal(BootstrapStarted);
    assert forall i :: 0 <= i < |kinds| && kinds[i] == Signal(BootstrapStarted) ==> i < |Boot(boot)|;
  }

  // ---- The worker ----

  class Worker {
    var lifecycle: QueryState
    var sequence: nat
    var attempts: seq<Attempt>

    constructor (lifecycle: QueryState, stored: nat)
      ensures this.lifecycle == lifecycle && this.sequence == stored && this.attempts == []
    {
      this.lifecycle, this.sequence, this.attempts := lifecycle, stored, [];
    }

    /** Every attempt took the next number after the stored one. */
    ghost predicate Numbered(stored: nat)
      reads this`sequence, this`attempts
    {
      && sequence == stored + |attempts|
      && forall i :: 0 <= i < |attempts| ==> attempts[i].sequence == stored + 1 + i
    }

    ghost predicate Shaped(shape: Shape)
      reads this`attempts
    {
      Kinds(attempts) == Render(shape)
    }

    /** Takes the next sequence number and publishes under it. */
    method Publish(kind: Kind, failing: set<nat>, ghost stored: nat) returns (ok: bool)
      requires Numbered(stored)
      modifies this`sequence, this`attempts
      ensures Numbered(stored)
      ensures sequence == old(sequence) + 1
      ensures attempts == old(attempts) + [Attempt(sequence, kind)]
      ensures Kinds(attempts) == Kinds(old(attempts)) + [kind]
      ensures ok <==> sequence !in failing
    {
      sequence := sequence + 1;
      attempts := attempts + [Attempt(sequence, kind)];
      ok := sequence !in failing;
    }

    /** Publishes the results of all initial data between two signals; stops at the first failure. */
    method Bootstrap(sources: seq<SourceFeed>, failing: set<nat>, ghost stored: nat) returns (ok: bool, ghost changes: nat)
      requires attempts == [] && sequence == stored
      modifies this`sequence, this`attempts
      ensures Numbered(stored)
      ensures ok <==> BootstrapSucceeds(sources, failing, stored)
      ensures ok ==> Shaped(Booted(Items(sources)))
      ensures !ok ==>
                && StopsAt(sources, failing, stored, changes, sequence)
                && Shaped(if sequence == stored + 1 + changes then InBootstrap(changes) else Booted(changes))
    {
      YieldEnds(sources);
      hide Render, Kinds, Boot, Numbered, Yield, BootstrapSucceeds, StopsAt;
      changes := 0;
      ShapeSteps(None, 0);
      assert Numbered(stored) by {
        NothingNumbered(this, stored);
      }
      ok := Publish(Signal(BootstrapStarted), failing, stored);
      if !ok {
        GivenUp(sources, failing, stored, changes);
        return;
      }
      for i := 0 to |sources|
        invariant Numbered(stored) && Shaped(InBootstrap(changes))
        invariant sequence == stored + 1 + changes
        invariant changes == |Yield(sources[..i])| <= |Yield(sources)|
        invariant forall k :: 0 <= k < changes ==> Yield(sources)[k].Item?
        invariant forall k: nat | stored < k <= sequence :: k !in failing
      {
        YieldAt(sources, i);
        if sources[i].SubscribeError? {
          ok := false;
          GivenUp(sources, failing, stored, changes);
          return;
        }
        for j := 0 to |sources[i].items|
          invariant Numbered(stored) && Shaped(InBootstrap(changes))
          invariant sequence == stored + 1 + changes && changes == |Yield(sources[..i])| + j
          invariant forall k :: 0 <= k < changes ==> Yield(sources)[k].Item?
          invariant forall k: nat | stored < k <= sequence :: k !in failing
        {
          assert sources[i].items[j] == Yield(sources)[changes];
          if !sources[i].items[j].Item? {
            ok := false;
            GivenUp(sources, failing, stored, changes);
            return;
          }
          ShapeSteps(None, changes);
          ok := Publish(ResultChange, failing, stored);
          changes := changes + 1;
          if !ok {
            GivenUp(sources, failing, stored, changes);
            return;
          }
        }
      }
      ShapeSteps(None, changes);
      ok := Publish(Signal(BootstrapCompleted), failing, stored);
      FilledUp(sources, failing, stored, changes);
    }

    /** Publishes only when there are results; anything else that goes wrong ends the loop. */
    method ProcessChange(outcome: Processing, failing: set<nat>, ghost stored: nat) returns (ok: bool)
      requires Numbered(stored)
      modifies this`sequence, this`attempts
      ensures Numbered(stored)
      ensures outcome.Results? ==>
                && sequence == old(sequence) + 1
                && attempts == old(attempts) + [Attempt(sequence, ResultChange)]
                && Kinds(attempts) == Kinds(old(attempts)) + [ResultChange]
      ensures !outcome.Results? ==> sequence == old(sequence) && attempts == old(attempts)
      ensures ok <==> outcome.Nothing? || (outcome.Results? && sequence !in failing)
    {
      match outcome
      case Failed => ok := false;
      case Nothing => ok := true;
      case Results => ok := Publish(ResultChange, failing, stored);
    }

    /** The commands and messages after the Running signal; `stopping` when the loop was left. */
    method Loop(inputs: seq<Input>, failing: set<nat>, ghost stored: nat, ghost boot: Option<nat>)
      returns (stopping: bool, ghost end: Ending)
      requires Numbered(stored) && Shaped(InRun(boot, 0)) && lifecycle.Running?
      modifies this
      ensures Numbered(stored)
      ensures end == LoopEnding(inputs, failing, old(sequence)) && stopping == end.stopping && lifecycle == end.state
      ensures Shaped(if end.deleted then Gone(boot, end.changes) else InRun(boot, end.changes))
    {
      hide Render, Kinds, Boot, Numbered;
      stopping := false;
      ghost var changes := 0;
      end := LoopEnding(inputs, failing, sequence);
      for i := 0 to |inputs|
        invariant Numbered(stored) && Shaped(InRun(boot, changes)) && !stopping && lifecycle.Running?
        invariant end == After(changes, LoopEnding(inputs[i..], failing, sequence))
      {
        assert inputs[i..][1..] == inputs[i + 1..] && inputs[i..][0] == inputs[i];
        ShapeSteps(boot, changes);
        match inputs[i]
        case ShutdownCommand =>
          stopping := true;
          return;
        case DeleteCommand =>
          var _ := Publish(Signal(QueryDeleted), failing, stored);
          stopping := true;
          return;
        case PauseCommand =>
          return;
        case CommandsClosed =>
          lifecycle := TerminalError;
          stopping := true;
          return;
        case ReceiveError =>
          lifecycle := TransientError;
          stopping := true;
          return;
        case ReceiveNone =>
        case Message(named, outcome) =>
          if named {
            var ok := ProcessChange(outcome, failing, stored);
            if outcome.Results? {
              changes := changes + 1;
            }
            if !ok {
              lifecycle := TransientError;
              stopping := true;
              return;
            }
          }
      }
    }

    /**
     A whole life. Its attempts are numbered without a gap from the stored number on, and what they
     are follows from the script: nothing, part of a bootstrap, a complete bootstrap, or a run, which
     ends with the Stopped signal when the loop is left.
     */
    method Start(script: Script)
      requires attempts == []
      modifies this
      ensures Numbered(old(sequence))
      ensures LifeSoFar(Kinds(attempts))
      ensures RunsOn(old(lifecycle), script, old(sequence)) ==>
                Kinds(attempts) == LifeOf(old(lifecycle), script, old(sequence))
      ensures lifecycle == FinalState(old(lifecycle), script, old(sequence))
      ensures Signal(ControlSignal.Running) in Kinds(attempts) <==> RunsOn(old(lifecycle), script, old(sequence))
      ensures Signal(BootstrapStarted) in Kinds(attempts) <==>
                && script.indexOk && script.queryOk && script.viewOk && script.sequenceOk
                && (old(lifecycle) in {Configured, Bootstrapping}
                    || (old(lifecycle) == QueryState.Running && script.volatileStore))
      ensures Signal(BootstrapStarted) in Kinds(attempts) ==> Kinds(attempts)[0] == Signal(BootstrapStarted)
      ensures !script.indexOk ==> attempts == [] && lifecycle == TransientError
      ensures script.indexOk && !script.queryOk ==> attempts == [] && lifecycle == TerminalError
      ensures script.indexOk && script.queryOk && !(script.viewOk && script.sequenceOk) ==>
                attempts == [] && lifecycle == TransientError
      ensures Signal(BootstrapStarted) in Kinds(attempts) && !BootstrapSucceeds(script.sources, script.failing, old(sequence)) ==>
                lifecycle == TerminalError && Signal(ControlSignal.Running) !in Kinds(attempts)
      ensures script.indexOk && script.queryOk && script.viewOk && script.sequenceOk && old(lifecycle) == TerminalError ==>
                attempts == [] && lifecycle == TerminalError
      ensures Signal(ControlSignal.Running) in Kinds(attempts) ==> script.streamOk
      ensures script.indexOk && script.queryOk && script.viewOk && script.sequenceOk && !script.streamOk
              && old(lifecycle) != TerminalError
              && (Signal(BootstrapStarted) in Kinds(attempts) ==>
                    BootstrapSucceeds(script.sources, script.failing, old(sequence))) ==>
                lifecycle == TransientError
    {
      hide Render, Numbered, LoopEnding, RunShape, BootstrapSucceeds, Kinds, Boot, Items;
      ghost var stored := sequence;
      ShapeSteps(None, 0);
      NothingNumbered(this, stored);
      assert LifeSoFar(Kinds(attempts)) by {
        assert Shaped(Silent);
      }
      if !script.indexOk {
        lifecycle := TransientError;
        return;
      }
      if !script.queryOk {
        lifecycle := TerminalError;
        return;
      }
      if !script.viewOk {
        lifecycle := TransientError;
        return;
      }
      if lifecycle == QueryState.Running && script.volatileStore {
        lifecycle := Configured;
      }
      if !script.sequenceOk {
        lifecycle := TransientError;
        return;
      }
      ghost var boot: Option<nat> := None;
      if lifecycle == Configured || lifecycle == Bootstrapping {
        lifecycle := Bootstrapping;
        ghost var changes;
        var ok;
        ok, changes := Bootstrap(script.sources, script.failing, stored);
        SignalsInside(None, changes);
        SignalsInside(Some(Items(script.sources)), Items(script.sources));
        if !ok {
          lifecycle := TerminalError;
          return;
        }
        boot := Some(Items(script.sources));
        ShapeSteps(boot, Items(script.sources));
      }
      if lifecycle == TerminalError {
        return;  // not implemented: the worker's task ends at once
      }
      lifecycle := QueryState.Running;
      if !script.streamOk {
        lifecycle := TransientError;
        SignalsInside(boot, 0);
        return;
      }
      SignalsInRun(boot, LoopEnding(script.inputs, script.failing, sequence + 1));
      SequenceSoFar(this, stored, boot);
      Run(script, stored, boot);
    }

    /** From the Running signal on. */
    method Run(script: Script, ghost stored: nat, ghost boot: Option<nat>)
      requires Numbered(stored) && Kinds(attempts) == Boot(boot) && lifecycle.Running?
      modifies this
      ensures Numbered(stored)
      ensures lifecycle == LoopEnding(script.inputs, script.failing, old(sequence) + 1).state
      ensures Kinds(attempts) == Render(RunShape(boot, LoopEnding(script.inputs, script.failing, old(sequence) + 1)))
    {
      hide Render, Kinds, Boot, Numbered, LoopEnding;
      ShapeSteps(boot, 0);
      var _ := Publish(Signal(ControlSignal.Running), script.failing, stored);
      var stopping;
      ghost var end;
      stopping, end := Loop(script.inputs, script.failing, stored, boot);
      ShapeSteps(boot, end.changes);
      if stopping {
        var _ := Publish(Signal(Stopped), script.failing, stored);
      }
    }
  }

  lemma NothingNumbered(w: Worker, stored: nat)
    requires w.attempts == [] && w.sequence == stored
    ensures w.Numbered(stored)
  {
  }

  lemma SequenceSoFar(w: Worker, stored: nat, boot: Option<nat>)
    requires w.Numbered(stored) && Kinds(w.attempts) == Boot(boot)
    ensures w.sequence == stored + |Boot(boot)|
  {
    assert |Kinds(w.attempts)| == |w.attempts|;
  }
}
