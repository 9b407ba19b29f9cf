/** The discovery loop: as the code that drives a write guard, and as a task among concurrent users of the lock. */
module DiscoveryTask {
  import opened Sequences
  import opened Entities
  import opened ReverseIndex
  import opened TopologyModel
  import opened TopologyRuns
  import opened TopologyEvents
  import opened TopologyStore
  import opened TopologyGuards
  import opened Discovery
  import opened DiffEffects
  import opened Interleavings

  // ---- The loop itself

  /** The streams of the providers that started, in provider order. */
  function Started<S>(providers: seq<Result<S, Text>>): seq<S> {
    if providers == [] then []
    else
      var front, last := Started(providers[..|providers| - 1]), providers[|providers| - 1];
      if last.Ok? then front + [last.value] else front
  }

  method StartProviders<S>(providers: seq<Result<S, Text>>) returns (streams: seq<S>)
    ensures streams == Started(providers)
  {
    streams := [];
    for i := 0 to |providers|
      invariant streams == Started(providers[..i])
    {
      assert providers[..i + 1][..i] == providers[..i];
      match providers[i] {
        case Ok(stream) => streams := streams + [stream];
        case Err(_) =>
      }
    }
    assert providers[..|providers|] == providers;
  }

  /** Since it was in state `from` with `queued` events, the guard has made exactly the calls `ops`. */
  ghost predicate Ran(t: TopologyWriteGuard, from: State, queued: seq<TopologyEvent>, ops: seq<Op>)
    reads t, t.state
  {
    t.state.View() == Run(from, ops) && t.pending == queued + EventsOfRun(from, ops)
  }

  lemma OneMore(from: State, ops: seq<Op>, op: Op)
    ensures Run(from, ops + [op]) == Apply(Run(from, ops), op)
    ensures EventsOfRun(from, ops + [op]) == EventsOfRun(from, ops) + EventsOf(Run(from, ops), op)
  {
    assert (ops + [op])[..|ops|] == ops;
  }

  lemma RanOneMore(from: State, queued: seq<TopologyEvent>, done: seq<Op>, ops: seq<Op>, i: nat)
    requires i < |ops|
    ensures Run(from, done + ops[..i + 1]) == Apply(Run(from, done + ops[..i]), ops[i])
    ensures queued + EventsOfRun(from, done + ops[..i + 1])
         == queued + EventsOfRun(from, done + ops[..i]) + EventsOf(Run(from, done + ops[..i]), ops[i])
  {
    assert done + ops[..i + 1] == done + ops[..i] + [ops[i]];
    OneMore(from, done + ops[..i], ops[i]);
  }

  method RemoveEach(
    t: TopologyWriteGuard, refs: seq<EntityRef>, ghost from: State, ghost queued: seq<TopologyEvent>, ghost done: seq<Op>)
    requires Ran(t, from, queued, done)
    modifies t, t.state
    ensures Ran(t, from, queued, done + RemoveOps(refs))
  {
    ghost var ops := RemoveOps(refs);
    assert done + ops[..0] == done;
    for i := 0 to |refs|
      invariant Ran(t, from, queued, done + ops[..i])
    {
      RanOneMore(from, queued, done, ops, i);
      match refs[i].kind {
        case ComponentKind => t.RemoveComponent(refs[i].id);
        case AppKind => t.RemoveApp(refs[i].id);
        case AreaKind => t.RemoveArea(refs[i].id);
      }
    }
    assert ops[..|ops|] == ops;
  }

  method AddComponents(
    t: TopologyWriteGuard, components: seq<Component>, ghost from: State, ghost queued: seq<TopologyEvent>, ghost done: seq<Op>)
    requires Ran(t, from, queued, done)
    modifies t, t.state
    ensures Ran(t, from, queued, done + ComponentOps(components))
  {
    ghost var ops := ComponentOps(components);
    assert done + ops[..0] == done;
    for i := 0 to |components|
      invariant Ran(t, from, queued, done + ops[..i])
    {
      RanOneMore(from, queued, done, ops, i);
      t.AddComponent(components[i]);
    }
    assert ops[..|ops|] == ops;
  }

  method AddApps(
    t: TopologyWriteGuard, apps: seq<App>, ghost from: State, ghost queued: seq<TopologyEvent>, ghost done: seq<Op>)
    requires Ran(t, from, queued, done)
    modifies t, t.state
    ensures Ran(t, from, queued, done + AppOps(apps))
  {
    ghost var ops := AppOps(apps);
    assert done + ops[..0] == done;
    for i := 0 to |apps|
      invariant Ran(t, from, queued, done + ops[..i])
    {
      RanOneMore(from, queued, done, ops, i);
      t.AddApp(apps[i]);
    }
    assert ops[..|ops|] == ops;
  }

  method AddAreas(
    t: TopologyWriteGuard, areas: seq<Area>, ghost from: State, ghost queued: seq<TopologyEvent>, ghost done: seq<Op>)
    requires Ran(t, from, queued, done)
    modifies t, t.state
    ensures Ran(t, from, queued, done + AreaOps(areas))
  {
    ghost var ops := AreaOps(areas);
    assert done + ops[..0] == done;
    for i := 0 to |areas|
      invariant Ran(t, from, queued, done + ops[..i])
    {
      RanOneMore(from, queued, done, ops, i);
      t.AddArea(areas[i]);
    }
    assert ops[..|ops|] == ops;
  }

  /** One diff under one guard: removes, then components, apps and areas. */
  method ApplyUnderGuard(t: TopologyWriteGuard, d: Diff)
    modifies t, t.state
    ensures t.state.View() == ApplyDiff(old(t.state.View()), d)
    ensures t.pending == old(t.pending) + EventsOfDiff(old(t.state.View()), d)
  {
    ghost var from, queued := t.state.View(), t.pending;
    ghost var r, c, a := RemoveOps(d.remove), ComponentOps(d.components), AppOps(d.apps);
    RemoveEach(t, d.remove, from, queued, []);
    assert [] + r == r && queued + [] == queued;
    AddComponents(t, d.components, from, queued, r);
    AddApps(t, d.apps, from, queued, r + c);
    AddAreas(t, d.areas, from, queued, r + c + a);
    InOrder(r, c, a, AreaOps(d.areas));
    DiffEvents(from, d);
  }

  lemma InOrder(r: seq<Op>, c: seq<Op>, a: seq<Op>, q: seq<Op>)
    ensures r + c + a + q == r + (c + a + q)
  {
  }

  /** The events a stretch of the merged stream sends. */
  function EventsOfItems(s: State, items: seq<Item>): seq<TopologyEvent> {
    if items == [] then []
    else
      var front, last := items[..|items| - 1], items[|items| - 1];
      EventsOfItems(s, front) + if last.Ok? then EventsOfDiff(RunItems(s, front), last.value) else []
  }

  /** Those are the events of all the operations of the stretch, and replaying them follows the tables. */
  lemma {:induction false} ItemsAreAnnounced(s: State, items: seq<Item>)
    requires Inv(s)
    ensures EventsOfItems(s, items) == EventsOfRun(s, OpsOfItems(items))
    ensures Inv(RunItems(s, items)) && KeysOf(RunItems(s, items)) == Replay(KeysOf(s), EventsOfItems(s, items))
  {
    ItemsAreOps(s, items);
    RunKeepsInv(s, OpsOfItems(items));
    if items != [] {
      var front, last := items[..|items| - 1], items[|items| - 1];
      ItemsAreAnnounced(s, front);
      ItemsAreOps(s, front);
      EventsConcat(s, OpsOfItems(front), OpsOfItem(last));
      if last.Ok? {
        DiffEvents(RunItems(s, front), last.value);
      }
    }
    RunIsReplayed(s, OpsOfItems(items));
  }

  lemma {:induction false} RunIsReplayed(s: State, ops: seq<Op>)
    requires Inv(s)
    ensures KeysOf(Run(s, ops)) == Replay(KeysOf(s), EventsOfRun(s, ops))
  {
    if ops != [] {
      var front, last := ops[..|ops| - 1], ops[|ops| - 1];
      RunIsReplayed(s, front);
      RunKeepsInv(s, front);
      ReplayFollowsApply(Run(s, front), last);
      ReplayConcat(KeysOf(s), EventsOfRun(s, front), EventsOf(Run(s, front), last));
    }
  }

  /** The loop over the merged stream, up to where it ends or is cancelled. */
  method ProcessEvents(state: TopologyState, events: EventChannel, merged: seq<Item>)
    modifies state, events
    ensures state.View() == RunItems(old(state.View()), merged)
    ensures events.sent == old(events.sent) + EventsOfItems(old(state.View()), merged)
  {
    ghost var sent := old(events.sent);
    assert sent + [] == sent;
    for i := 0 to |merged|
      invariant state.View() == RunItems(old(state.View()), merged[..i])
      invariant events.sent == sent + EventsOfItems(old(state.View()), merged[..i])
    {
      assert merged[..i + 1][..i] == merged[..i];
      match merged[i] {
        case Ok(diff) =>
          var t := new TopologyWriteGuard(state, events);
          ApplyUnderGuard(t, diff);
          t.Drop();
        case Err(_) =>
      }
    }
    assert merged[..|merged|] == merged;
  }

  // ---- The loop as a task that can be shut down

  /** The guard of the discovery task, among all guards. */
  const DISCOVERY: nat := 0

  datatype Phase =
    | Polling
    | Locking(diff: Diff)
    | Applying(diff: Diff, done: nat)
    | Flushing(diff: Diff)
    | Stopped(abandoned: Option<Diff>)

  datatype Task = Task(pulled: nat, phase: Phase, applied: seq<Diff>)

  datatype World = World(sys: System, task: Task, merged: seq<Item>)

  function Begin(capacity: nat, merged: seq<Item>): World {
    World(Start(capacity), Task(0, Polling, []), merged)
  }

  datatype Move =
    | Others(step: Step)
    | Pull
    | Lock
    | Call
    | EndOfDiff
    | FlushOne
    | Unlock
    | ShutDown

  predicate HoldsGuard(w: World) {
    w.sys.lock.Exclusive? && w.sys.lock.writer == DISCOVERY
  }

  predicate NeedsGuard(step: Step) {
    step.Mutate? || step.BeginDrop? || step.Flush? || step.Release?
  }

  /** Shutdown can only win where discovery awaits: for the next item, or for the lock. */
  predicate Possible(w: World, move: Move) {
    match move
    case Others(step) => Enabled(w.sys, step) && step != Write(DISCOVERY) && !(HoldsGuard(w) && NeedsGuard(step))
    case Pull => w.task.phase.Polling? && w.task.pulled < |w.merged|
    case Lock => w.task.phase.Locking? && Enabled(w.sys, Write(DISCOVERY))
    case Call => w.task.phase.Applying? && w.task.phase.done < |DiffOps(w.task.phase.diff)| && Guarding(w, false)
    case EndOfDiff => w.task.phase.Applying? && w.task.phase.done == |DiffOps(w.task.phase.diff)| && Guarding(w, false)
    case FlushOne => w.task.phase.Flushing? && Enabled(w.sys, Flush)
    case Unlock => w.task.phase.Flushing? && Enabled(w.sys, Release)
    case ShutDown => w.task.phase.Polling? || w.task.phase.Locking?
  }

  predicate Guarding(w: World, dropping: bool) {
    w.sys.lock.Exclusive? && w.sys.lock.dropping == dropping
  }

  function Moved(w: World, move: Move): World
    requires Possible(w, move)
  {
    var task := w.task;
    match move
    case Others(step) => w.(sys := Next(w.sys, step))
    case Pull =>
      var item := w.merged[task.pulled];
      w.(task := task.(pulled := task.pulled + 1, phase := if item.Ok? then Locking(item.value) else Polling))
    case Lock => w.(sys := Next(w.sys, Write(DISCOVERY)), task := task.(phase := Applying(task.phase.diff, 0)))
    case Call =>
      w.(sys := Next(w.sys, Mutate(DiffOps(task.phase.diff)[task.phase.done])),
         task := task.(phase := Applying(task.phase.diff, task.phase.done + 1)))
    case EndOfDiff => w.(sys := Next(w.sys, BeginDrop), task := task.(phase := Flushing(task.phase.diff)))
    case FlushOne => w.(sys := Next(w.sys, Flush))
    case Unlock =>
      w.(sys := Next(w.sys, Release), task := task.(phase := Polling, applied := task.applied + [task.phase.diff]))
    case ShutDown =>
      w.(task := task.(phase := Stopped(if task.phase.Locking? then Some(task.phase.diff) else None)))
  }

  function Try(w: World, move: Move): World {
    if Possible(w, move) then Moved(w, move) else w
  }

  function Play(w: World, moves: seq<Move>): World {
    if moves == [] then w else Try(Play(w, moves[..|moves| - 1]), moves[|moves| - 1])
  }

  // ---- Diffs are applied whole or not at all

  /** The diff between the stream and the batches, if there is one. */
  function InFlight(phase: Phase): seq<Diff> {
    match phase
    case Polling => []
    case Stopped(abandoned) => if abandoned.Some? then [abandoned.value] else []
    case _ => [phase.diff]
  }

  /** What the discovery task did in each of its guards. */
  function Mine(batches: seq<Batch>): seq<seq<Op>> {
    if batches == [] then []
    else
      var front, last := Mine(batches[..|batches| - 1]), batches[|batches| - 1];
      if last.writer == DISCOVERY then front + [last.ops] else front
  }

  function OpsOf(diffs: seq<Diff>): seq<seq<Op>> {
    seq(|diffs|, i requires 0 <= i < |diffs| => DiffOps(diffs[i]))
  }

  ghost predicate TaskInv(w: World) {
    && w.task.pulled <= |w.merged|
    && Started(w.merged[..w.task.pulled]) == w.task.applied + InFlight(w.task.phase)
    && Mine(w.sys.batches) == OpsOf(w.task.applied)
    && (w.sys.lock.Shared? ==> w.sys.open == [])
    && (HoldsGuard(w) <==> w.task.phase.Applying? || w.task.phase.Flushing?)
    && (w.task.phase.Applying? ==>
          && w.task.phase.done <= |DiffOps(w.task.phase.diff)|
          && !w.sys.lock.dropping
          && w.sys.open == DiffOps(w.task.phase.diff)[..w.task.phase.done])
    && (w.task.phase.Flushing? ==> w.sys.lock.dropping && w.sys.open == DiffOps(w.task.phase.diff))
  }

  lemma OthersKeepInv(w: World, step: Step)
    requires TaskInv(w) && Possible(w, Others(step))
    ensures TaskInv(Moved(w, Others(step)))
  {
    if step.Release? {
      var batches := w.sys.batches + [Batch(w.sys.lock.writer, w.sys.open)];
      assert batches[..|batches| - 1] == w.sys.batches;
    }
  }

  lemma PullKeepsInv(w: World)
    requires TaskInv(w) && Possible(w, Pull)
    ensures TaskInv(Moved(w, Pull))
  {
    var n := w.task.pulled;
    assert w.merged[..n + 1][..n] == w.merged[..n];
    assert w.task.applied + [] == w.task.applied;
  }

  lemma CallKeepsInv(w: World)
    requires TaskInv(w) && Possible(w, Call)
    ensures TaskInv(Moved(w, Call))
  {
    var ops, n := DiffOps(w.task.phase.diff), w.task.phase.done;
    assert ops[..n + 1] == ops[..n] + [ops[n]];
  }

  lemma UnlockKeepsInv(w: World)
    requires TaskInv(w) && Possible(w, Unlock)
    ensures TaskInv(Moved(w, Unlock))
  {
    var batches := w.sys.batches + [Batch(w.sys.lock.writer, w.sys.open)];
    assert batches[..|batches| - 1] == w.sys.batches;
    assert OpsOf(w.task.applied + [w.task.phase.diff]) == OpsOf(w.task.applied) + [DiffOps(w.task.phase.diff)];
    assert w.task.applied + [w.task.phase.diff] + [] == w.task.applied + [w.task.phase.diff];
  }

  lemma MovedKeepsInv(w: World, move: Move)
    requires TaskInv(w) && Possible(w, move)
    ensures TaskInv(Moved(w, move))
  {
    match move
    case Others(step) => OthersKeepInv(w, step);
    case Pull => PullKeepsInv(w);
    case Lock =>
    case Call => CallKeepsInv(w);
    case EndOfDiff =>
    case FlushOne =>
    case Unlock => UnlockKeepsInv(w);
    case ShutDown =>
  }

  /** At every point of every play, discovery's guards did exactly the diffs it pulled, minus one in flight or abandoned. */
  lemma {:induction false} TaskInvAlways(capacity: nat, merged: seq<Item>, moves: seq<Move>)
    ensures TaskInv(Play(Begin(capacity, merged), moves))
  {
    if moves == [] {
      assert merged[..0] == [];
      assert OpsOf([]) == [];
    } else {
      var front, last := moves[..|moves| - 1], moves[|moves| - 1];
      TaskInvAlways(capacity, merged, front);
      if Possible(Play(Begin(capacity, merged), front), last) {
        MovedKeepsInv(Play(Begin(capacity, merged), front), last);
      }
    }
  }

  function RunDiffs(s: State, diffs: seq<Diff>): State {
    if diffs == [] then s else ApplyDiff(RunDiffs(s, diffs[..|diffs| - 1]), diffs[|diffs| - 1])
  }

  lemma {:induction false} SoleWriterBatches(batches: seq<Batch>, diffs: seq<Diff>)
    requires Mine(batches) == OpsOf(diffs) && forall b :: b in batches ==> b.writer == DISCOVERY
    ensures RunBatches(batches) == RunDiffs(EMPTY, diffs)
  {
    if batches != [] {
      var front, last := batches[..|batches| - 1], batches[|batches| - 1];
      assert last in batches && forall b :: b in front ==> b in batches;
      assert Mine(batches) == Mine(front) + [last.ops];
      assert OpsOf(diffs)[|diffs| - 1] == last.ops;
      assert OpsOf(diffs[..|diffs| - 1]) == OpsOf(diffs)[..|diffs| - 1];
      SoleWriterBatches(front, diffs[..|diffs| - 1]);
    } else {
      assert |OpsOf(diffs)| == 0;
    }
  }

  /**
   Whenever a reader can look, the state is a whole number of guards and the
   discovery guards among them are whole diffs; with no other writer it is the
   pulled diffs one after the other, less at most the one that is waiting for
   the lock or was abandoned there by a shutdown.
   */
  lemma ReadersSeeWholeDiffs(capacity: nat, merged: seq<Item>, moves: seq<Move>)
    ensures var w := Play(Begin(capacity, merged), moves);
            w.sys.lock.Shared? ==>
              && w.sys.state == RunBatches(w.sys.batches)
              && Mine(w.sys.batches) == OpsOf(w.task.applied)
              && w.task.pulled <= |merged|
              && Started(merged[..w.task.pulled]) == w.task.applied + InFlight(w.task.phase)
              && (w.task.phase.Polling? || w.task.phase.Locking? || w.task.phase.Stopped?)
              && ((forall b :: b in w.sys.batches ==> b.writer == DISCOVERY)
                  ==> w.sys.state == RunDiffs(EMPTY, w.task.applied))
  {
    TaskInvAlways(capacity, merged, moves);
    SystemInvAlways(capacity, []);
    PlayKeepsSystemInv(Begin(capacity, merged), moves);
    var w := Play(Begin(capacity, merged), moves);
    if w.sys.lock.Shared? && forall b :: b in w.sys.batches ==> b.writer == DISCOVERY {
      SoleWriterBatches(w.sys.batches, w.task.applied);
    }
  }

  /** Each diff is coherent in the topology the diffs before it leave. */
  ghost predicate CoherentDiffs(s: State, rel: Relation, diffs: seq<Diff>) {
    forall n :: 0 <= n < |diffs| ==> DiffCoherent(RunDiffs(s, diffs[..n]), rel, diffs[n])
  }

  lemma CoherentDiffStaysExact(s: State, rel: Relation, d: Diff)
    requires Inv(s) && SetExact(IndexFor(s, rel)) && DiffCoherent(s, rel, d)
    ensures Inv(ApplyDiff(s, d)) && SetExact(IndexFor(ApplyDiff(s, d), rel))
  {
    DiffKeepsIndexExactIff(s, rel, d);
    RunKeepsInv(s, DiffOps(d));
  }

  lemma CoherentDiffsFront(s: State, rel: Relation, diffs: seq<Diff>)
    requires diffs != [] && CoherentDiffs(s, rel, diffs)
    ensures CoherentDiffs(s, rel, diffs[..|diffs| - 1])
    ensures DiffCoherent(RunDiffs(s, diffs[..|diffs| - 1]), rel, diffs[|diffs| - 1])
  {
    var front := diffs[..|diffs| - 1];
    forall n | 0 <= n < |front| ensures front[..n] == diffs[..n] && front[n] == diffs[n] {
    }
  }

  lemma {:induction false} CoherentDiffsStayExact(s: State, rel: Relation, diffs: seq<Diff>)
    requires Inv(s) && SetExact(IndexFor(s, rel)) && CoherentDiffs(s, rel, diffs)
    ensures Inv(RunDiffs(s, diffs)) && SetExact(IndexFor(RunDiffs(s, diffs), rel))
  {
    if diffs != [] {
      CoherentDiffsFront(s, rel, diffs);
      CoherentDiffsStayExact(s, rel, diffs[..|diffs| - 1]);
      CoherentDiffStaysExact(RunDiffs(s, diffs[..|diffs| - 1]), rel, diffs[|diffs| - 1]);
    }
  }

  lemma EmptyIsExact(rel: Relation)
    ensures Inv(EMPTY) && SetExact(IndexFor(EMPTY, rel))
  {
  }

  /** With discovery the only writer and its diffs coherent, a reader never sees an inexact index, whatever a diff does on the way. */
  lemma ReadersSeeExactIndexes(capacity: nat, merged: seq<Item>, moves: seq<Move>, rel: Relation)
    requires var w := Play(Begin(capacity, merged), moves);
             && w.sys.lock.Shared?
             && (forall b :: b in w.sys.batches ==> b.writer == DISCOVERY)
             && CoherentDiffs(EMPTY, rel, w.task.applied)
    ensures SetExact(IndexFor(Play(Begin(capacity, merged), moves).sys.state, rel))
  {
    ReadersSeeWholeDiffs(capacity, merged, moves);
    EmptyIsExact(rel);
    CoherentDiffsStayExact(EMPTY, rel, Play(Begin(capacity, merged), moves).task.applied);
  }

  /** The task only ever takes steps of the shared machine. */
  lemma {:induction false} PlayKeepsSystemInv(w: World, moves: seq<Move>)
    requires SystemInv(w.sys)
    ensures SystemInv(Play(w, moves).sys) && Play(w, moves).merged == w.merged
  {
    if moves != [] {
      var front, last := moves[..|moves| - 1], moves[|moves| - 1];
      PlayKeepsSystemInv(w, front);
      var before := Play(w, front);
      if Possible(before, last) {
        match last
        case Others(step) => NextKeepsInv(before.sys, step);
        case Lock => NextKeepsInv(before.sys, Write(DISCOVERY));
        case Call => NextKeepsInv(before.sys, Mutate(DiffOps(before.task.phase.diff)[before.task.phase.done]));
        case EndOfDiff => NextKeepsInv(before.sys, BeginDrop);
        case FlushOne => NextKeepsInv(before.sys, Flush);
        case Unlock => NextKeepsInv(before.sys, Release);
        case _ =>
      }
    }
  }

  /** Shutdown can be taken exactly while discovery runs and does not hold the lock. */
  lemma ShutDownIff(capacity: nat, merged: seq<Item>, moves: seq<Move>)
    ensures var w := Play(Begin(capacity, merged), moves);
            Possible(w, ShutDown) <==> !HoldsGuard(w) && !w.task.phase.Stopped?
  {
    TaskInvAlways(capacity, merged, moves);
  }

  /** Whatever discovery does, others may do all that the lock allows them, short of acting in its name. */
  lemma OthersAreFree(w: World, step: Step)
    requires Enabled(w.sys, step) && step != Write(DISCOVERY)
    requires HoldsGuard(w) ==> step.Subscribe? || step.Receive? || step.TakeSnapshot?
    ensures Possible(w, Others(step)) && Try(w, Others(step)) == w.(sys := Next(w.sys, step))
  {
  }

  lemma {:induction false} PlayConcat(w: World, a: seq<Move>, b: seq<Move>)
    ensures Play(w, a + b) == Play(Play(w, a), b)
  {
    if b == [] {
      assert a + b == a;
    } else {
      PlayConcat(w, a, b[..|b| - 1]);
      assert (a + b)[..|a + b| - 1] == a + b[..|b| - 1];
    }
  }

  lemma PlayOne(w: World, move: Move)
    ensures Play(w, [move]) == Try(w, move)
  {
    assert [move][..0] == [];
  }

  lemma OneCallFurther(from: State, queued: seq<TopologyEvent>, before: seq<Op>, ops: seq<Op>, n: nat)
    requires n < |ops|
    ensures Run(from, ops[..n + 1]) == Apply(Run(from, ops[..n]), ops[n])
    ensures before + ops[..n + 1] == before + ops[..n] + [ops[n]]
    ensures queued + EventsOfRun(from, ops[..n + 1])
         == queued + EventsOfRun(from, ops[..n]) + EventsOf(Run(from, ops[..n]), ops[n])
  {
    assert ops[..n + 1] == ops[..n] + [ops[n]];
    OneMore(from, ops[..n], ops[n]);
  }

  /** The world after the first `n` calls of a diff. */
  function Called(w: World, d: Diff, n: nat): World
    requires w.sys.lock.Exclusive? && n <= |DiffOps(d)|
  {
    var ops := DiffOps(d)[..n];
    var lock := w.sys.lock.(pending := w.sys.lock.pending + EventsOfRun(w.sys.state, ops));
    World(w.sys.(state := Run(w.sys.state, ops), open := w.sys.open + ops, lock := lock),
          w.task.(phase := Applying(d, n)), w.merged)
  }

  lemma CallIs(w: World, d: Diff, n: nat, op: Op, next: State, events: seq<TopologyEvent>)
    requires w.task.phase == Applying(d, n) && Guarding(w, false) && n < |DiffOps(d)| && DiffOps(d)[n] == op
    requires next == Apply(w.sys.state, op) && events == EventsOf(w.sys.state, op)
    ensures var lock := w.sys.lock.(pending := w.sys.lock.pending + events);
            Try(w, Call)
            == World(w.sys.(state := next, open := w.sys.open + [op], lock := lock),
                     w.task.(phase := Applying(d, n + 1)), w.merged)
  {
  }

  lemma CallOne(w: World, d: Diff, n: nat)
    requires Guarding(w, false) && n < |DiffOps(d)|
    ensures Try(Called(w, d, n), Call) == Called(w, d, n + 1)
  {
    var from, ops := w.sys.state, DiffOps(d);
    OneCallFurther(from, w.sys.lock.pending, w.sys.open, ops, n);
    CallIs(Called(w, d, n), d, n, ops[n], Run(from, ops[..n + 1]), EventsOf(Run(from, ops[..n]), ops[n]));
  }

  /** The calls of a diff can all be made. */
  lemma {:induction false} CallAll(w: World, d: Diff, n: nat) returns (moves: seq<Move>)
    requires w.task.phase == Applying(d, 0) && Guarding(w, false) && n <= |DiffOps(d)|
    ensures Play(w, moves) == Called(w, d, n)
  {
    if n == 0 {
      moves := [];
      assert w.sys.open + [] == w.sys.open && w.sys.lock.pending + [] == w.sys.lock.pending;
    } else {
      var first := CallAll(w, d, n - 1);
      moves := first + [Call];
      PlayConcat(w, first, [Call]);
      PlayOne(Play(w, first), Call);
      CallOne(w, d, n - 1);
    }
  }

  lemma {:induction false} FlushRest(w: World) returns (moves: seq<Move>)
    requires w.task.phase.Flushing? && Guarding(w, true)
    ensures Play(w, moves)
         == w.(sys := w.sys.(sent := w.sys.sent + w.sys.lock.pending, lock := w.sys.lock.(pending := [])))
    decreases |w.sys.lock.pending|
  {
    var pending := w.sys.lock.pending;
    if pending == [] {
      moves := [];
      assert w.sys.sent + [] == w.sys.sent;
    } else {
      var rest := FlushRest(Moved(w, FlushOne));
      moves := [FlushOne] + rest;
      PlayConcat(w, [FlushOne], rest);
      PlayOne(w, FlushOne);
      FlushOneMore(w.sys.sent, pending);
    }
  }

  lemma FlushOneMore(sent: seq<TopologyEvent>, pending: seq<TopologyEvent>)
    requires pending != []
    ensures sent + [pending[0]] + pending[1..] == sent + pending
  {
  }

  /** Once all calls are made the guard flushes and lets go. */
  lemma FinishDiff(w: World) returns (moves: seq<Move>)
    requires w.task.phase.Applying? && w.task.phase.done == |DiffOps(w.task.phase.diff)| && Guarding(w, false)
    ensures Play(w, moves)
         == w.(sys := w.sys.(sent := w.sys.sent + w.sys.lock.pending, lock := Shared({}), open := [],
                             batches := w.sys.batches + [Batch(w.sys.lock.writer, w.sys.open)]),
               task := w.task.(phase := Polling, applied := w.task.applied + [w.task.phase.diff]))
  {
    var flushing := Moved(w, EndOfDiff);
    var flushes := FlushRest(flushing);
    moves := [EndOfDiff] + flushes + [Unlock];
    PlayOne(w, EndOfDiff);
    PlayOne(Play(flushing, flushes), Unlock);
    PlayConcat(w, [EndOfDiff], flushes);
    PlayConcat(w, [EndOfDiff] + flushes, [Unlock]);
  }

  /** With the lock free, the next diff can be pulled, applied and announced in whole, as the loop does it. */
  lemma WholeDiffRuns(w: World, d: Diff) returns (moves: seq<Move>)
    requires w.task.phase.Polling? && w.sys.lock == Shared({}) && w.sys.open == []
    requires w.task.pulled < |w.merged| && w.merged[w.task.pulled] == Ok(d)
    ensures Play(w, moves)
         == w.(sys := w.sys.(state := ApplyDiff(w.sys.state, d), sent := w.sys.sent + EventsOfDiff(w.sys.state, d),
                             batches := w.sys.batches + [Batch(DISCOVERY, DiffOps(d))]),
               task := Task(w.task.pulled + 1, Polling, w.task.applied + [d]))
  {
    var pulled := Moved(w, Pull);
    var locked := Moved(pulled, Lock);
    var calls := CallAll(locked, d, |DiffOps(d)|);
    var called := Play(locked, calls);
    assert DiffOps(d)[..|DiffOps(d)|] == DiffOps(d);
    var rest := FinishDiff(called);
    moves := [Pull] + [Lock] + calls + rest;
    PlayOne(w, Pull);
    PlayOne(pulled, Lock);
    PlayConcat(w, [Pull], [Lock]);
    PlayConcat(w, [Pull] + [Lock], calls);
    PlayConcat(w, [Pull] + [Lock] + calls, rest);
    DiffEvents(w.sys.state, d);
    assert [] + DiffOps(d) == DiffOps(d) && [] + EventsOfDiff(w.sys.state, d) == EventsOfDiff(w.sys.state, d);
  }

  /** After shutdown the discovery task does nothing more, whatever others do. */
  lemma {:induction false} StoppedIsFinal(w: World, moves: seq<Move>)
    requires TaskInv(w) && w.task.phase.Stopped?
    ensures Play(w, moves).task == w.task
    ensures Mine(Play(w, moves).sys.batches) == Mine(w.sys.batches)
    ensures TaskInv(Play(w, moves))
  {
    if moves != [] {
      var front, last := moves[..|moves| - 1], moves[|moves| - 1];
      StoppedIsFinal(w, front);
      if Possible(Play(w, front), last) {
        MovedKeepsInv(Play(w, front), last);
      }
    }
  }
}
