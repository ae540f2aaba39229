/**
 * The capped flush queue between emitters and collectors: every interleaving of pushes with the
 * separate pop, insert and requeue steps of any number of collectors.
 */
module FlushQueue {
  import opened Text
  import opened UsageStore

  /**
   * Events are named by their emission number. `queue` is the Redis list, newest first; `held` are
   * the events popped but neither inserted nor requeued; `lost` are those whose requeue failed.
   */
  datatype State = State(emitted: nat, queue: seq<nat>, held: seq<nat>, inserted: seq<nat>, trimmed: seq<nat>,
                         lost: seq<nat>)

  datatype Step =
    | Emit               // LPUSH and LTRIM
    | Pop                // BRPOP by a collector that holds nothing
    | Insert(i: nat)     // the row of a held event is written
    | Requeue(i: nat)    // its insert failed; LPUSH without a trim
    | Lose(i: nat)       // its insert failed, and so did the push back, whose error is ignored

  const START := State(0, [], [], [], [], [])

  function Without(s: seq<nat>, i: nat): (r: seq<nat>)
    requires i < |s|
    ensures |r| == |s| - 1 && multiset(r) + multiset{s[i]} == multiset(s)
  {
    assert s == s[..i] + [s[i]] + s[i + 1..];
    s[..i] + s[i + 1..]
  }

  /** What LTRIM cuts off after a push. */
  function CutOff(queue: seq<nat>, x: nat, cap: nat): (r: seq<nat>)
    ensures multiset(PushCapped(queue, x, cap)) + multiset(r) == multiset(queue) + multiset{x}
  {
    var pushed := [x] + queue;
    assert multiset(pushed) == multiset(queue) + multiset{x};
    if |queue| < cap then []
    else
      assert pushed == pushed[..cap] + pushed[cap..];
      pushed[cap..]
  }

  /** One step with the given list cap and number of collectors; None when not enabled. */
  function Next(cap: nat, collectors: nat, s: State, step: Step): Option<State> {
    match step
    case Emit =>
      Some(s.(emitted := s.emitted + 1, queue := PushCapped(s.queue, s.emitted, cap),
              trimmed := s.trimmed + CutOff(s.queue, s.emitted, cap)))
    case Pop =>
      if s.queue == [] || |s.held| >= collectors then None
      else Some(s.(queue := s.queue[..|s.queue| - 1], held := s.held + [s.queue[|s.queue| - 1]]))
    case Insert(i) =>
      if i >= |s.held| then None else Some(s.(held := Without(s.held, i), inserted := s.inserted + [s.held[i]]))
    case Requeue(i) =>
      if i >= |s.held| then None else Some(s.(held := Without(s.held, i), queue := [s.held[i]] + s.queue))
    case Lose(i) =>
      if i >= |s.held| then None else Some(s.(held := Without(s.held, i), lost := s.lost + [s.held[i]]))
  }

  function Run(cap: nat, collectors: nat, s: State, steps: seq<Step>): Option<State>
    decreases |steps|
  {
    if steps == [] then Some(s)
    else
      match Next(cap, collectors, s, steps[0])
      case None => None
      case Some(s') => Run(cap, collectors, s', steps[1..])
  }

  // ---------- conservation ----------

  /** The events emitted so far, each once. */
  ghost function Emitted(n: nat): multiset<nat> {
    if n == 0 then multiset{} else Emitted(n - 1) + multiset{n - 1}
  }

  lemma {:induction false} EmittedOnce(n: nat, x: nat)
    ensures Emitted(n)[x] == if x < n then 1 else 0
  {
    if n > 0 {
      EmittedOnce(n - 1, x);
    }
  }

  ghost function Everywhere(s: State): multiset<nat> {
    multiset(s.queue) + multiset(s.held) + multiset(s.inserted) + multiset(s.trimmed) + multiset(s.lost)
  }

  ghost predicate Conserved(cap: nat, collectors: nat, s: State) {
    && Everywhere(s) == Emitted(s.emitted)
    && |s.held| <= collectors
    && |s.queue| + |s.held| <= cap + collectors
  }

  lemma {:induction false} ConservedStep(cap: nat, collectors: nat, s: State, step: Step, s': State)
    requires Conserved(cap, collectors, s) && Next(cap, collectors, s, step) == Some(s')
    ensures Conserved(cap, collectors, s')
  {
    hide Everywhere, Emitted, PushCapped, CutOff, Without;
    match step
    case Emit =>
      EmittedNext(s.emitted);
      EmitKeeps(cap, collectors, s, s');
    case Pop => PopKeeps(s.queue, s.held); EverywhereAfterPop(cap, collectors, s, s');
    case Insert(i) => MoveKeeps(s, s', i);
    case Requeue(i) => MoveKeeps(s, s', i);
    case Lose(i) => MoveKeeps(s, s', i);
  }

  lemma {:induction false} EmitKeeps(cap: nat, collectors: nat, s: State, s': State)
    requires Next(cap, collectors, s, Emit) == Some(s')
    ensures Everywhere(s') == Everywhere(s) + multiset{s.emitted}
  {
    hide CutOff, PushCapped;
    var cut := CutOff(s.queue, s.emitted, cap);
    assert multiset(s'.trimmed) == multiset(s.trimmed) + multiset(cut);
    var was, now, x := multiset(s.queue), multiset(s'.queue), multiset{s.emitted};
    assert now + multiset(cut) == was + x;
    var rest := multiset(s.held) + multiset(s.inserted) + multiset(s.trimmed) + multiset(s.lost);
    assert Everywhere(s) == was + rest;
    assert Everywhere(s') == (now + multiset(cut)) + rest;
  }

  lemma {:induction false} EverywhereAfterPop(cap: nat, collectors: nat, s: State, s': State)
    requires Next(cap, collectors, s, Pop) == Some(s')
    ensures Everywhere(s') == Everywhere(s)
  {
    PopKeeps(s.queue, s.held);
  }

  /** A held event moves to the rows, back to the queue, or is lost: nothing else moves. */
  lemma {:induction false} MoveKeeps(s: State, s': State, i: nat)
    requires i < |s.held| && s'.held == Without(s.held, i)
    requires s'.trimmed == s.trimmed
    requires || (s'.inserted == s.inserted + [s.held[i]] && s'.queue == s.queue && s'.lost == s.lost)
             || (s'.queue == [s.held[i]] + s.queue && s'.inserted == s.inserted && s'.lost == s.lost)
             || (s'.lost == s.lost + [s.held[i]] && s'.queue == s.queue && s'.inserted == s.inserted)
    ensures Everywhere(s') == Everywhere(s)
  {
    hide Without;
    var x := multiset{s.held[i]};
    assert multiset(s.inserted + [s.held[i]]) == multiset(s.inserted) + x;
    assert multiset([s.held[i]] + s.queue) == multiset(s.queue) + x;
    assert multiset(s.lost + [s.held[i]]) == multiset(s.lost) + x;
  }

  lemma {:induction false} PopKeeps(queue: seq<nat>, held: seq<nat>)
    requires queue != []
    ensures var last := |queue| - 1;
            multiset(queue[..last]) + multiset(held + [queue[last]]) == multiset(queue) + multiset(held)
  {
    assert queue == queue[..|queue| - 1] + [queue[|queue| - 1]];
  }

  lemma {:induction false} EmittedNext(n: nat)
    ensures Emitted(n + 1) == Emitted(n) + multiset{n}
  {
  }

  lemma {:induction false} ConservedAlways(cap: nat, collectors: nat, s: State, steps: seq<Step>, s': State)
    requires Conserved(cap, collectors, s) && Run(cap, collectors, s, steps) == Some(s')
    ensures Conserved(cap, collectors, s')
    decreases |steps|
  {
    hide Conserved, Next;
    if steps != [] {
      var mid := Next(cap, collectors, s, steps[0]).value;
      ConservedStep(cap, collectors, s, steps[0], mid);
      ConservedAlways(cap, collectors, mid, steps[1..], s');
    }
  }

  /**
   * In every interleaving of any number of emitters and collectors, each emitted event is in exactly
   * one place: queued, held, inserted, trimmed or lost in a failed requeue. So no event is inserted
   * twice. The list passes its cap by at most one event per collector.
   */
  lemma {:induction false} QueueConserves(cap: nat, collectors: nat, steps: seq<Step>, s: State)
    requires Run(cap, collectors, START, steps) == Some(s)
    ensures Everywhere(s) == Emitted(s.emitted)
    ensures forall i, j :: 0 <= i < j < |s.inserted| ==> s.inserted[i] != s.inserted[j]
    ensures |s.queue| <= cap + collectors
  {
    ConservedAlways(cap, collectors, START, steps, s);
    forall i, j | 0 <= i < j < |s.inserted| ensures s.inserted[i] != s.inserted[j] {
      var x := s.inserted[i];
      EmittedOnce(s.emitted, x);
      assert multiset(s.inserted)[x] <= Everywhere(s)[x] <= 1;
      var head, tail := s.inserted[..j], s.inserted[j..];
      assert s.inserted == head + tail;
      assert x == head[i] && s.inserted[j] == tail[0];
    }
  }

  // ---------- first in, first out ----------

  /** Inserted rows, then the held event, then the queue from its oldest end: ever later emissions. */
  ghost predicate Ordered(s: State) {
    && s.lost == []
    && (forall i, j :: 0 <= i < j < |s.inserted| ==> s.inserted[i] < s.inserted[j])
    && (forall i, j :: 0 <= i < |s.inserted| && 0 <= j < |s.held| ==> s.inserted[i] < s.held[j])
    && (forall i, j :: 0 <= i < |s.inserted| && 0 <= j < |s.queue| ==> s.inserted[i] < s.queue[j])
    && (forall i, j :: 0 <= i < |s.held| && 0 <= j < |s.queue| ==> s.held[i] < s.queue[j])
    && (forall i, j :: 0 <= i < j < |s.queue| ==> s.queue[j] < s.queue[i])
    && (forall i :: 0 <= i < |s.queue| ==> s.queue[i] < s.emitted)
    && (forall i :: 0 <= i < |s.held| ==> s.held[i] < s.emitted)
    && (forall i :: 0 <= i < |s.inserted| ==> s.inserted[i] < s.emitted)
  }

  predicate InsertFails(step: Step) {
    step.Requeue? || step.Lose?
  }

  lemma {:induction false} OrderedEmit(cap: nat, s: State, s': State)
    requires Ordered(s) && Next(cap, 1, s, Emit) == Some(s')
    ensures Ordered(s')
  {
    var pushed := [s.emitted] + s.queue;
    assert forall i :: 0 <= i < |s'.queue| ==> s'.queue[i] == pushed[i];
  }

  lemma {:induction false} OrderedPop(cap: nat, s: State, s': State)
    requires Ordered(s) && s.held == [] && Next(cap, 1, s, Pop) == Some(s')
    ensures Ordered(s')
  {
    var last := |s.queue| - 1;
    assert s'.held == [s.queue[last]] && s'.inserted == s.inserted;
    assert forall i :: 0 <= i < |s'.queue| ==> s'.queue[i] == s.queue[i] && s.queue[last] < s.queue[i];
  }

  lemma {:induction false} OrderedInsert(cap: nat, s: State, s': State)
    requires Ordered(s) && |s.held| <= 1 && Next(cap, 1, s, Insert(0)) == Some(s')
    ensures Ordered(s') && s'.held == []
  {
    InsertEffect(cap, s, s');
    hide Next;
    var n := |s.inserted|;
    assert forall i :: 0 <= i < n ==> s'.inserted[i] == s.inserted[i] < s'.inserted[n];
  }

  lemma {:induction false} InsertEffect(cap: nat, s: State, s': State)
    requires |s.held| <= 1 && Next(cap, 1, s, Insert(0)) == Some(s')
    ensures |s.held| == 1 && s' == s.(held := [], inserted := s.inserted + [s.held[0]])
  {
  }

  lemma {:induction false} OrderedStep(cap: nat, s: State, step: Step, s': State)
    requires Ordered(s) && |s.held| <= 1 && !InsertFails(step) && Next(cap, 1, s, step) == Some(s')
    ensures Ordered(s') && |s'.held| <= 1
  {
    hide Ordered, PushCapped, CutOff;
    match step
    case Emit => OrderedEmit(cap, s, s');
    case Pop => OrderedPop(cap, s, s');
    case Insert(i) => OrderedInsert(cap, s, s');
  }

  /** A trim drops only events older than every event it leaves in the queue. */
  lemma {:induction false} TrimDropsOldest(cap: nat, s: State, s': State, dropped: nat, kept: nat)
    requires Ordered(s) && Next(cap, 1, s, Emit) == Some(s')
    requires dropped in CutOff(s.queue, s.emitted, cap) && kept in s'.queue
    ensures dropped < kept
  {
    var pushed := [s.emitted] + s.queue;
    var i :| 0 <= i < |s'.queue| && s'.queue[i] == kept;
    var j :| 0 <= j < |pushed[cap..]| && pushed[cap..][j] == dropped;
    assert pushed[i] == kept && pushed[cap + j] == dropped && i < cap;
  }

  /** Requeuing after a failed insert keeps the order exactly when nothing else is queued. */
  lemma {:induction false} RequeueKeepsOrderIff(cap: nat, s: State, s': State)
    requires Ordered(s) && |s.held| <= 1 && Next(cap, 1, s, Requeue(0)) == Some(s')
    ensures Ordered(s') <==> s.queue == []
  {
    RequeueEffect(cap, s, s');
    hide Next;
    if s.queue == [] {
      assert s'.queue == [s.held[0]];
    } else {
      assert s'.queue[0] == s.held[0] && s'.queue[1] == s.queue[0];
    }
  }

  lemma {:induction false} RequeueEffect(cap: nat, s: State, s': State)
    requires |s.held| <= 1 && Next(cap, 1, s, Requeue(0)) == Some(s')
    ensures |s.held| == 1 && s' == s.(held := [], queue := [s.held[0]] + s.queue)
  {
  }

  lemma {:induction false} RunStep(cap: nat, s: State, steps: seq<Step>, i: nat, s': State)
    requires i < |steps| && Next(cap, 1, s, steps[i]) == Some(s')
    ensures Run(cap, 1, s, steps[i..]) == Run(cap, 1, s', steps[i + 1..])
  {
    hide Next;
    assert steps[i..][0] == steps[i] && steps[i..][1..] == steps[i + 1..];
  }

  lemma {:induction false} EmitStep(cap: nat, s: State)
    requires |s.queue| < cap
    ensures Next(cap, 1, s, Emit) == Some(s.(emitted := s.emitted + 1, queue := [s.emitted] + s.queue))
  {
    assert s.trimmed + [] == s.trimmed;
  }

  /** Popping the oldest event of a list and writing its row, or pushing it back. */
  lemma {:induction false} HandleStep(cap: nat, s: State, rest: seq<nat>, x: nat)
    requires s.queue == rest + [x] && s.held == []
    ensures Next(cap, 1, s, Pop) == Some(s.(queue := rest, held := [x]))
    ensures Next(cap, 1, s.(queue := rest, held := [x]), Insert(0))
         == Some(s.(queue := rest, inserted := s.inserted + [x]))
    ensures Next(cap, 1, s.(queue := rest, held := [x]), Requeue(0)) == Some(s.(queue := [x] + rest))
  {
    assert s.queue[..|s.queue| - 1] == rest && [] + [x] == [x] && Without([x], 0) == [];
  }

  /** Two emissions, and the first one's insert fails: its row is written after the second's. */
  lemma {:induction false} RequeuedIsOvertaken(cap: nat)
    requires cap >= 2
    ensures Run(cap, 1, START, [Emit, Emit, Pop, Requeue(0), Pop, Insert(0), Pop, Insert(0)])
         == Some(State(2, [], [], [1, 0], [], []))
  {
    hide Next, Without, Run, PushCapped, CutOff;
    var steps := [Emit, Emit, Pop, Requeue(0), Pop, Insert(0), Pop, Insert(0)];
    var s1, s2 := State(1, [0], [], [], [], []), State(2, [1, 0], [], [], [], []);
    var s4, s6 := State(2, [0, 1], [], [], [], []), State(2, [0], [], [1], [], []);
    var end := State(2, [], [], [1, 0], [], []);
    EmitStep(cap, START);
    EmitStep(cap, s1);
    HandleStep(cap, s2, [1], 0);
    HandleStep(cap, s4, [0], 1);
    HandleStep(cap, s6, [], 0);
    assert [0] + [] == [0] && [1] + [0] == [1, 0] && [0] + [1] == [0, 1] && [] + [0] == [0] && [] + [1] == [1];
    RunStep(cap, START, steps, 0, s1);
    RunStep(cap, s1, steps, 1, s2);
    RunStep(cap, s2, steps, 2, s2.(queue := [1], held := [0]));
    RunStep(cap, s2.(queue := [1], held := [0]), steps, 3, s4);
    RunStep(cap, s4, steps, 4, s4.(queue := [0], held := [1]));
    RunStep(cap, s4.(queue := [0], held := [1]), steps, 5, s6);
    RunStep(cap, s6, steps, 6, s6.(queue := [], held := [0]));
    RunStep(cap, s6.(queue := [], held := [0]), steps, 7, end);
    assert steps[0..] == steps && steps[8..] == [];
    RunNothing(cap, end);
  }

  lemma {:induction false} RunNothing(cap: nat, s: State)
    ensures Run(cap, 1, s, []) == Some(s)
  {
  }

  lemma {:induction false} OrderedAlways(cap: nat, s: State, steps: seq<Step>, s': State)
    requires Ordered(s) && |s.held| <= 1 && Run(cap, 1, s, steps) == Some(s')
    requires forall i :: 0 <= i < |steps| ==> !InsertFails(steps[i])
    ensures Ordered(s')
    decreases |steps|
  {
    hide Ordered, Next;
    if steps != [] {
      var mid := Next(cap, 1, s, steps[0]).value;
      OrderedStep(cap, s, steps[0], mid);
      OrderedAlways(cap, mid, steps[1..], s');
    }
  }

  /** The queue from its oldest event to its newest. */
  function OldestFirst(queue: seq<nat>): (r: seq<nat>)
    ensures |r| == |queue| && forall i :: 0 <= i < |r| ==> r[i] == queue[|queue| - 1 - i]
  {
    seq(|queue|, i requires 0 <= i < |queue| => queue[|queue| - 1 - i])
  }

  /** The emissions 0..n-1 in order with the trimmed ones removed. */
  function Kept(n: nat, trimmed: seq<nat>): seq<nat> {
    if n == 0 then [] else Kept(n - 1, trimmed) + if n - 1 in trimmed then [] else [n - 1]
  }

  predicate Increasing(line: seq<nat>) {
    forall i, j :: 0 <= i < j < |line| ==> line[i] < line[j]
  }

  /** The line holds the emissions below n except the trimmed ones. */
  ghost predicate Holds(line: seq<nat>, n: nat, trimmed: seq<nat>) {
    forall x: nat :: x in line <==> x < n && x !in trimmed
  }

  lemma {:induction false} AllBelow(line: seq<nat>, n: nat, trimmed: seq<nat>)
    requires Holds(line, n, trimmed)
    ensures forall i :: 0 <= i < |line| ==> line[i] < n
  {
    forall i | 0 <= i < |line| ensures line[i] < n {
      assert line[i] in line;
    }
  }

  lemma {:induction false} LargestIsLast(line: seq<nat>, n: nat, trimmed: seq<nat>)
    requires n > 0 && n - 1 !in trimmed && Increasing(line) && Holds(line, n, trimmed)
    ensures line != [] && line[|line| - 1] == n - 1
  {
    assert n - 1 in line;
    var k :| 0 <= k < |line| && line[k] == n - 1;
    var last := line[|line| - 1];
    assert last in line;
    assert line[k] <= last < n;
  }

  lemma {:induction false} WithoutLargest(line: seq<nat>, n: nat, trimmed: seq<nat>)
    requires n > 0 && n - 1 !in trimmed && Increasing(line) && Holds(line, n, trimmed)
    requires line != [] && line[|line| - 1] == n - 1
    ensures Increasing(line[..|line| - 1]) && Holds(line[..|line| - 1], n - 1, trimmed)
  {
    var init := line[..|line| - 1];
    assert forall i :: 0 <= i < |init| ==> init[i] == line[i];
    assert line == init + [n - 1];
    assert n - 1 !in init;
  }

  lemma {:induction false} NothingBelow(line: seq<nat>, trimmed: seq<nat>)
    requires Holds(line, 0, trimmed)
    ensures line == []
  {
    assert line != [] ==> line[0] in line;
    AllBelow(line, 0, trimmed);
  }

  lemma {:induction false} TrimmedIsMissing(line: seq<nat>, n: nat, trimmed: seq<nat>)
    requires n > 0 && n - 1 in trimmed && Holds(line, n, trimmed)
    ensures Holds(line, n - 1, trimmed)
  {
  }

  /** An increasing sequence is determined by its members. */
  lemma {:induction false} IncreasingIsKept(line: seq<nat>, n: nat, trimmed: seq<nat>)
    requires Increasing(line) && Holds(line, n, trimmed)
    ensures line == Kept(n, trimmed)
  {
    hide Increasing, Holds;
    if n == 0 {
      NothingBelow(line, trimmed);
    } else if n - 1 in trimmed {
      TrimmedIsMissing(line, n, trimmed);
      IncreasingIsKept(line, n - 1, trimmed);
    } else {
      LargestIsLast(line, n, trimmed);
      WithoutLargest(line, n, trimmed);
      IncreasingIsKept(line[..|line| - 1], n - 1, trimmed);
      assert line == line[..|line| - 1] + [n - 1];
    }
  }

  /**
   * With one collector and no failed insert, the inserted rows, then the event being inserted, then
   * the queue read oldest first, are the emission order with only trimmed events removed.
   */
  lemma {:induction false} QueueIsFifo(cap: nat, steps: seq<Step>, s: State)
    requires Run(cap, 1, START, steps) == Some(s)
    requires forall i :: 0 <= i < |steps| ==> !InsertFails(steps[i])
    ensures s.inserted + s.held + OldestFirst(s.queue) == Kept(s.emitted, s.trimmed)
  {
    hide Run, Kept;
    OrderedAlways(cap, START, steps, s);
    ConservedAlways(cap, 1, START, steps, s);
    var line := s.inserted + s.held + OldestFirst(s.queue);
    forall x: nat ensures x in line <==> x < s.emitted && x !in s.trimmed {
      EmittedOnce(s.emitted, x);
      QueueMembers(s.queue, x);
      assert Everywhere(s)[x] == Emitted(s.emitted)[x];
    }
    LineIncreases(s);
    IncreasingIsKept(line, s.emitted, s.trimmed);
  }

  lemma {:induction false} QueueMembers(queue: seq<nat>, x: nat)
    ensures x in OldestFirst(queue) <==> x in queue
  {
    var r := OldestFirst(queue);
    assert forall i :: 0 <= i < |queue| ==> queue[i] == r[|queue| - 1 - i];
  }

  lemma {:induction false} LineIncreases(s: State)
    requires Ordered(s) && |s.held| <= 1
    ensures var line := s.inserted + s.held + OldestFirst(s.queue);
            Increasing(line)
  {
  }
}
