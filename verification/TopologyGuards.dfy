/**
 Concurrent readers, writers and subscribers of one topology, as a state machine.
 The lock admits many readers or one writer; subscribing takes no lock. A
 schedule is any sequence of steps, and a step that is not enabled does nothing.
 */
module TopologyGuards {
  import opened Sequences
  import opened Entities
  import opened TopologyModel
  import opened TopologyRuns
  import opened TopologyEvents

  datatype Lock =
    | Shared(readers: set<nat>)
    | Exclusive(writer: nat, pending: seq<TopologyEvent>, dropping: bool)

  /** What one write guard did while it was held. */
  datatype Batch = Batch(writer: nat, ops: seq<Op>)

  /** The live refs a subscriber read under a guard, and how many events had been sent by then. */
  datatype Snapshot = Snapshot(refs: set<EntityRef>, at: nat)

  /** A broadcast receiver that keeps what it receives. */
  datatype Subscriber =
    Subscriber(start: nat, cursor: nat, inbox: seq<TopologyEvent>, snapshot: Option<Snapshot>, lagged: bool)

  datatype System = System(
    state: State,
    lock: Lock,
    sent: seq<TopologyEvent>,
    capacity: nat,
    subscribers: map<nat, Subscriber>,
    batches: seq<Batch>,
    open: seq<Op>)

  function Start(capacity: nat): System {
    System(EMPTY, Shared({}), [], capacity, map[], [], [])
  }

  datatype Step =
    | Read(guard: nat)
    | DropRead(guard: nat)
    | Write(guard: nat)
    | Mutate(op: Op)
    | BeginDrop
    | Flush
    | Release
    | Subscribe(id: nat)
    | TakeSnapshot(id: nat, guard: nat)
    | Receive(id: nat)

  predicate Enabled(sys: System, step: Step) {
    match step
    case Read(g) => sys.lock.Shared? && g !in sys.lock.readers
    case DropRead(g) => sys.lock.Shared? && g in sys.lock.readers
    case Write(g) => sys.lock == Shared({})
    case Mutate(op) => sys.lock.Exclusive? && !sys.lock.dropping
    case BeginDrop => sys.lock.Exclusive? && !sys.lock.dropping
    case Flush => sys.lock.Exclusive? && sys.lock.dropping && sys.lock.pending != []
    case Release => sys.lock.Exclusive? && sys.lock.dropping && sys.lock.pending == []
    case Subscribe(k) => k !in sys.subscribers
    case TakeSnapshot(k, g) => k in sys.subscribers && sys.lock.Shared? && g in sys.lock.readers
    case Receive(k) => k in sys.subscribers && sys.subscribers[k].cursor < |sys.sent|
  }

  /** A receiver that fell behind by more than the capacity skips to the oldest event kept. */
  function Received(sys: System, sub: Subscriber): Subscriber
    requires sub.cursor < |sys.sent|
  {
    if |sys.sent| - sub.cursor > sys.capacity
    then sub.(cursor := |sys.sent| - sys.capacity, lagged := true)
    else sub.(cursor := sub.cursor + 1, inbox := sub.inbox + [sys.sent[sub.cursor]])
  }

  function Next(sys: System, step: Step): System
    requires Enabled(sys, step)
  {
    match step
    case Read(g) => sys.(lock := Shared(sys.lock.readers + {g}))
    case DropRead(g) => sys.(lock := Shared(sys.lock.readers - {g}))
    case Write(g) => sys.(lock := Exclusive(g, [], false))
    case Mutate(op) =>
      sys.(state := Apply(sys.state, op),
           lock := sys.lock.(pending := sys.lock.pending + EventsOf(sys.state, op)),
           open := sys.open + [op])
    case BeginDrop => sys.(lock := sys.lock.(dropping := true))
    case Flush =>
      sys.(sent := sys.sent + [sys.lock.pending[0]],
           lock := sys.lock.(pending := sys.lock.pending[1..]))
    case Release =>
      sys.(lock := Shared({}), batches := sys.batches + [Batch(sys.lock.writer, sys.open)], open := [])
    case Subscribe(k) =>
      sys.(subscribers := sys.subscribers[k := Subscriber(|sys.sent|, |sys.sent|, [], None, false)])
    case TakeSnapshot(k, g) =>
      sys.(subscribers := sys.subscribers[
        k := sys.subscribers[k].(snapshot := Some(Snapshot(LiveRefs(sys.state), |sys.sent|)))])
    case Receive(k) => sys.(subscribers := sys.subscribers[k := Received(sys, sys.subscribers[k])])
  }

  function Attempt(sys: System, step: Step): System {
    if Enabled(sys, step) then Next(sys, step) else sys
  }

  function Execute(sys: System, schedule: seq<Step>): System {
    if schedule == [] then sys
    else Attempt(Execute(sys, schedule[..|schedule| - 1]), schedule[|schedule| - 1])
  }

  function Pending(lock: Lock): seq<TopologyEvent> {
    if lock.Shared? then [] else lock.pending
  }

  /** The topology after a number of complete write guards. */
  function RunBatches(batches: seq<Batch>): State {
    if batches == [] then EMPTY else Run(RunBatches(batches[..|batches| - 1]), batches[|batches| - 1].ops)
  }

  // ---- What holds between any two steps

  ghost predicate SubscriberInv(sent: seq<TopologyEvent>, sub: Subscriber) {
    && sub.start <= sub.cursor <= |sent|
    && (!sub.lagged ==> sub.inbox == sent[sub.start..sub.cursor])
    && (sub.snapshot.Some? ==>
          && sub.start <= sub.snapshot.value.at <= |sent|
          && sub.snapshot.value.refs == Notice({}, sent[..sub.snapshot.value.at]))
  }

  ghost predicate SystemInv(sys: System) {
    && Inv(sys.state)
    && KeysOf(sys.state) == Replay(NO_KEYS, sys.sent + Pending(sys.lock))
    && sys.state == Run(RunBatches(sys.batches), sys.open)
    && (sys.lock.Shared? ==> sys.open == [])
    && (forall k :: k in sys.subscribers ==> SubscriberInv(sys.sent, sys.subscribers[k]))
  }

  lemma MutateKeepsInv(sys: System, op: Op)
    requires SystemInv(sys) && Enabled(sys, Mutate(op))
    ensures SystemInv(Next(sys, Mutate(op)))
  {
    var events := EventsOf(sys.state, op);
    ApplyKeepsInv(sys.state, op);
    ReplayFollowsApply(sys.state, op);
    ReplayConcat(NO_KEYS, sys.sent + sys.lock.pending, events);
    assert sys.sent + sys.lock.pending + events == sys.sent + (sys.lock.pending + events);
    RunConcat(RunBatches(sys.batches), sys.open, [op]);
    assert [op][..0] == [];
  }

  lemma FlushKeepsInv(sys: System)
    requires SystemInv(sys) && Enabled(sys, Flush)
    ensures SystemInv(Next(sys, Flush))
  {
    var pending := sys.lock.pending;
    assert sys.sent + [pending[0]] + pending[1..] == sys.sent + pending;
    var sent' := sys.sent + [pending[0]];
    forall k | k in sys.subscribers ensures SubscriberInv(sent', sys.subscribers[k]) {
      var sub := sys.subscribers[k];
      assert sent'[sub.start..sub.cursor] == sys.sent[sub.start..sub.cursor];
      if sub.snapshot.Some? {
        assert sent'[..sub.snapshot.value.at] == sys.sent[..sub.snapshot.value.at];
      }
    }
  }

  lemma SnapshotKeepsInv(sys: System, k: nat, g: nat)
    requires SystemInv(sys) && Enabled(sys, TakeSnapshot(k, g))
    ensures SystemInv(Next(sys, TakeSnapshot(k, g)))
  {
    assert sys.sent + [] == sys.sent && sys.sent[..|sys.sent|] == sys.sent;
    ListedRefsReplay(NO_KEYS, sys.sent);
    assert ListedRefs(NO_KEYS) == {};
  }

  lemma NextKeepsInv(sys: System, step: Step)
    requires SystemInv(sys) && Enabled(sys, step)
    ensures SystemInv(Next(sys, step))
  {
    match step
    case Mutate(op) => MutateKeepsInv(sys, op);
    case Flush => FlushKeepsInv(sys);
    case TakeSnapshot(k, g) => SnapshotKeepsInv(sys, k, g);
    case Receive(k) =>
      var sub := sys.subscribers[k];
      if !sub.lagged {
        assert sys.sent[sub.start..sub.cursor + 1] == sys.sent[sub.start..sub.cursor] + [sys.sent[sub.cursor]];
      }
    case Release =>
      var batches := sys.batches + [Batch(sys.lock.writer, sys.open)];
      assert batches[..|batches| - 1] == sys.batches;
    case _ =>
  }

  /**
   At every step of every schedule, in the middle of a flush too, replaying what
   was sent and what the holder still has pending gives the tables' key lists.
   */
  lemma {:induction false} SystemInvAlways(capacity: nat, schedule: seq<Step>)
    ensures SystemInv(Execute(Start(capacity), schedule))
  {
    if schedule != [] {
      var front, last := schedule[..|schedule| - 1], schedule[|schedule| - 1];
      SystemInvAlways(capacity, front);
      if Enabled(Execute(Start(capacity), front), last) {
        NextKeepsInv(Execute(Start(capacity), front), last);
      }
    }
  }

  /** While a read guard can be held, the sent log alone accounts for the state, which is a whole number of batches. */
  lemma ReadersSeeCommittedState(capacity: nat, schedule: seq<Step>)
    ensures var sys := Execute(Start(capacity), schedule);
            sys.lock.Shared? ==>
              && KeysOf(sys.state) == Replay(NO_KEYS, sys.sent)
              && sys.state == RunBatches(sys.batches)
  {
    SystemInvAlways(capacity, schedule);
    var sys := Execute(Start(capacity), schedule);
    assert sys.sent + [] == sys.sent;
  }

  // ---- The log and the batches are what the steps say

  /** The steps of a schedule that are taken. */
  function Taken(sys: System, schedule: seq<Step>): seq<Step> {
    if schedule == [] then []
    else
      var front, last := schedule[..|schedule| - 1], schedule[|schedule| - 1];
      Taken(sys, front) + if Enabled(Execute(sys, front), last) then [last] else []
  }

  /** The operations of the taken mutations, in order. */
  function Mutations(taken: seq<Step>): seq<Op> {
    if taken == [] then []
    else
      var front, last := taken[..|taken| - 1], taken[|taken| - 1];
      if last.Mutate? then Mutations(front) + [last.op] else Mutations(front)
  }

  /** Those since the lock was last taken for writing or given back. */
  function OpenOps(taken: seq<Step>): seq<Op> {
    if taken == [] then []
    else
      var front, last := taken[..|taken| - 1], taken[|taken| - 1];
      match last
      case Mutate(op) => OpenOps(front) + [op]
      case Write(_) => []
      case Release => []
      case _ => OpenOps(front)
  }

  /** The guard that last took the lock for writing. */
  function LastWriter(taken: seq<Step>): nat {
    if taken == [] then 0
    else if taken[|taken| - 1].Write? then taken[|taken| - 1].guard
    else LastWriter(taken[..|taken| - 1])
  }

  /** One batch per release: its writer, and what was done since that writer took the lock. */
  function Batches(taken: seq<Step>): seq<Batch> {
    if taken == [] then []
    else
      var front, last := taken[..|taken| - 1], taken[|taken| - 1];
      if last.Release? then Batches(front) + [Batch(LastWriter(front), OpenOps(front))] else Batches(front)
  }

  ghost predicate TraceInv(sys: System, taken: seq<Step>) {
    && sys.state == Run(EMPTY, Mutations(taken))
    && sys.sent + Pending(sys.lock) == EventsOfRun(EMPTY, Mutations(taken))
    && sys.open == OpenOps(taken)
    && sys.batches == Batches(taken)
    && (sys.lock.Exclusive? ==> sys.lock.writer == LastWriter(taken))
    && (sys.lock.Shared? ==> sys.open == [])
  }

  lemma LastTaken(taken: seq<Step>, step: Step)
    ensures (taken + [step])[..|taken|] == taken
  {
  }

  lemma NextKeepsTrace(sys: System, step: Step, taken: seq<Step>)
    requires TraceInv(sys, taken) && Enabled(sys, step)
    ensures TraceInv(Next(sys, step), taken + [step])
  {
    LastTaken(taken, step);
    match step
    case Mutate(op) =>
      var ops := Mutations(taken);
      assert (ops + [op])[..|ops|] == ops;
      assert sys.sent + (sys.lock.pending + EventsOf(sys.state, op))
          == sys.sent + sys.lock.pending + EventsOf(sys.state, op);
    case Flush =>
      assert sys.sent + [sys.lock.pending[0]] + sys.lock.pending[1..] == sys.sent + sys.lock.pending;
    case _ =>
  }

  /**
   Over every schedule: the state is that of all taken mutations, in order; what
   was sent and is pending is exactly what they announce; each finished guard's
   batch holds what was done while it was held.
   */
  lemma {:induction false} TraceAlways(capacity: nat, schedule: seq<Step>)
    ensures TraceInv(Execute(Start(capacity), schedule), Taken(Start(capacity), schedule))
  {
    if schedule != [] {
      var front, last := schedule[..|schedule| - 1], schedule[|schedule| - 1];
      TraceAlways(capacity, front);
      if Enabled(Execute(Start(capacity), front), last) {
        NextKeepsTrace(Execute(Start(capacity), front), last, Taken(Start(capacity), front));
      } else {
        assert Taken(Start(capacity), front) + [] == Taken(Start(capacity), front);
      }
    } else {
      assert Execute(Start(capacity), []).sent + [] == [];
    }
  }

  /** All operations so far, finished guards first. */
  function AllOps(batches: seq<Batch>, open: seq<Op>): seq<Op> {
    if batches == [] then open
    else AllOps(batches[..|batches| - 1], batches[|batches| - 1].ops + open)
  }

  lemma {:induction false} AllOpsPlus(batches: seq<Batch>, a: seq<Op>, b: seq<Op>)
    ensures AllOps(batches, a + b) == AllOps(batches, a) + b
  {
    if batches != [] {
      var last := batches[|batches| - 1].ops;
      AllOpsPlus(batches[..|batches| - 1], last + a, b);
      assert last + (a + b) == last + a + b;
    }
  }

  lemma NextKeepsAll(sys: System, step: Step)
    requires Enabled(sys, step) && (sys.lock.Shared? ==> sys.open == [])
    ensures AllOps(Next(sys, step).batches, Next(sys, step).open)
         == AllOps(sys.batches, sys.open) + if step.Mutate? then [step.op] else []
  {
    match step
    case Mutate(op) => AllOpsPlus(sys.batches, sys.open, [op]);
    case Release =>
      var batches := sys.batches + [Batch(sys.lock.writer, sys.open)];
      assert batches[..|batches| - 1] == sys.batches && sys.open + [] == sys.open;
    case _ =>
  }

  /** Nothing is done outside a guard, so the batches and the open guard have all mutations. */
  lemma {:induction false} BatchesHaveAll(capacity: nat, schedule: seq<Step>)
    ensures var sys := Execute(Start(capacity), schedule);
            AllOps(sys.batches, sys.open) == Mutations(Taken(Start(capacity), schedule))
  {
    if schedule != [] {
      var front, last := schedule[..|schedule| - 1], schedule[|schedule| - 1];
      var sys, taken := Execute(Start(capacity), front), Taken(Start(capacity), front);
      BatchesHaveAll(capacity, front);
      TraceAlways(capacity, front);
      LastTaken(taken, last);
      assert taken + [] == taken;
      if Enabled(sys, last) {
        NextKeepsAll(sys, last);
      }
    }
  }

  /**
   Over every schedule, each ref has as many additions in the log, sent or
   pending, as there were adds of it, and as many removals as removals of it
   while it was live.
   */
  lemma LogCountsOps(capacity: nat, schedule: seq<Step>, ref: EntityRef)
    ensures var sys := Execute(Start(capacity), schedule);
            var ops := AllOps(sys.batches, sys.open);
            && multiset(sys.sent + Pending(sys.lock))[Added(ref)] == AddsOf(ops, ref)
            && multiset(sys.sent + Pending(sys.lock))[Removed(ref)] == RemovalsOf(EMPTY, ops, ref)
  {
    TraceAlways(capacity, schedule);
    BatchesHaveAll(capacity, schedule);
    EventsCountOps(EMPTY, Mutations(Taken(Start(capacity), schedule)), ref);
  }

  /** A new reader gets in exactly while no writer holds the lock, a writer exactly while nobody does. */
  lemma LockAdmits(sys: System, guard: nat)
    ensures sys.lock.Shared? && guard !in sys.lock.readers <==> Enabled(sys, Read(guard))
    ensures sys.lock.Shared? && sys.lock.readers == {} <==> Enabled(sys, Write(guard))
    ensures Enabled(sys, Read(guard)) ==> Next(sys, Read(guard)).lock == Shared(sys.lock.readers + {guard})
    ensures Enabled(sys, Write(guard)) ==> Next(sys, Write(guard)).lock == Exclusive(guard, [], false)
  {
  }

  /** Once a guard is being dropped it does nothing but send what it has pending, until it lets go. */
  lemma {:induction false} DroppingOnlyFlushes(sys: System, steps: seq<Step>)
    requires sys.lock.Exclusive? && sys.lock.dropping && Release !in steps
    ensures var later := Execute(sys, steps);
            && later.lock.Exclusive? && later.lock.dropping
            && later.state == sys.state && later.open == sys.open
            && later.sent + later.lock.pending == sys.sent + sys.lock.pending
  {
    if steps != [] {
      var front, last := steps[..|steps| - 1], steps[|steps| - 1];
      assert last in steps && forall step :: step in front ==> step in steps;
      DroppingOnlyFlushes(sys, front);
      var before := Execute(sys, front);
      if Enabled(before, last) && last.Flush? {
        assert before.sent + [before.lock.pending[0]] + before.lock.pending[1..] == before.sent + before.lock.pending;
      }
    }
  }

  /** While a read guard is held nothing changes, whatever else is tried. */
  lemma {:induction false} ReadersHoldStill(sys: System, guard: nat, steps: seq<Step>)
    requires sys.lock.Shared? && guard in sys.lock.readers && DropRead(guard) !in steps
    ensures var later := Execute(sys, steps);
            && later.lock.Shared? && guard in later.lock.readers
            && later.state == sys.state && later.sent == sys.sent && later.batches == sys.batches
  {
    if steps != [] {
      var front, last := steps[..|steps| - 1], steps[|steps| - 1];
      assert last in steps && forall step :: step in front ==> step in steps;
      ReadersHoldStill(sys, guard, front);
    }
  }

  lemma {:induction false} ExecuteConcat(sys: System, a: seq<Step>, b: seq<Step>)
    ensures Execute(sys, a + b) == Execute(Execute(sys, a), b)
  {
    if b == [] {
      assert a + b == a;
    } else {
      ExecuteConcat(sys, a, b[..|b| - 1]);
      assert (a + b)[..|a + b| - 1] == a + b[..|b| - 1];
    }
  }

  lemma ExecuteOne(sys: System, step: Step)
    ensures Execute(sys, [step]) == Attempt(sys, step)
  {
    assert [step][..0] == [];
  }

  lemma {:induction false} MutateAll(sys: System, ops: seq<Op>) returns (steps: seq<Step>)
    requires sys.lock.Exclusive? && !sys.lock.dropping
    ensures Execute(sys, steps)
         == sys.(state := Run(sys.state, ops), open := sys.open + ops,
                 lock := sys.lock.(pending := sys.lock.pending + EventsOfRun(sys.state, ops)))
  {
    if ops == [] {
      steps := [];
      assert sys.open + [] == sys.open && sys.lock.pending + [] == sys.lock.pending;
    } else {
      var front, last := ops[..|ops| - 1], ops[|ops| - 1];
      var first := MutateAll(sys, front);
      steps := first + [Mutate(last)];
      ExecuteConcat(sys, first, [Mutate(last)]);
      ExecuteOne(Execute(sys, first), Mutate(last));
      assert sys.open + front + [last] == sys.open + ops;
      assert sys.lock.pending + EventsOfRun(sys.state, front) + EventsOf(Run(sys.state, front), last)
          == sys.lock.pending + EventsOfRun(sys.state, ops);
    }
  }

  lemma {:induction false} FlushAll(sys: System) returns (steps: seq<Step>)
    requires sys.lock.Exclusive? && sys.lock.dropping
    ensures Execute(sys, steps) == sys.(sent := sys.sent + sys.lock.pending, lock := sys.lock.(pending := []))
    decreases |sys.lock.pending|
  {
    if sys.lock.pending == [] {
      steps := [];
      assert sys.sent + [] == sys.sent;
    } else {
      var next := Next(sys, Flush);
      var rest := FlushAll(next);
      steps := [Flush] + rest;
      ExecuteConcat(sys, [Flush], rest);
      ExecuteOne(sys, Flush);
      assert sys.sent + [sys.lock.pending[0]] + sys.lock.pending[1..] == sys.sent + sys.lock.pending;
    }
  }

  /** A free lock can be taken, any operations done, and given back: all take effect and all are announced. */
  lemma GuardRuns(sys: System, guard: nat, ops: seq<Op>) returns (steps: seq<Step>)
    requires sys.lock == Shared({}) && sys.open == []
    ensures Execute(sys, steps)
         == sys.(state := Run(sys.state, ops), sent := sys.sent + EventsOfRun(sys.state, ops),
                 batches := sys.batches + [Batch(guard, ops)])
  {
    var held := Next(sys, Write(guard));
    var mutate := MutateAll(held, ops);
    var done := Execute(held, mutate);
    var flush := FlushAll(Next(done, BeginDrop));
    var flushed := Execute(Next(done, BeginDrop), flush);
    steps := [Write(guard)] + mutate + [BeginDrop] + flush + [Release];
    ExecuteOne(sys, Write(guard));
    ExecuteOne(done, BeginDrop);
    ExecuteOne(flushed, Release);
    ExecuteConcat(sys, [Write(guard)], mutate);
    ExecuteConcat(sys, [Write(guard)] + mutate, [BeginDrop]);
    ExecuteConcat(sys, [Write(guard)] + mutate + [BeginDrop], flush);
    ExecuteConcat(sys, [Write(guard)] + mutate + [BeginDrop] + flush, [Release]);
    assert [] + ops == ops && [] + EventsOfRun(sys.state, ops) == EventsOfRun(sys.state, ops);
  }

  // ---- Subscribers converge

  /** The subscription counts from the moment it is made, and misses nothing unless the receiver falls too far behind. */
  lemma {:induction false} SubscriptionStarts(capacity: nat, schedule: seq<Step>, n: nat, k: nat)
    requires n < |schedule| && schedule[n] == Subscribe(k)
    requires k !in Execute(Start(capacity), schedule[..n]).subscribers
    ensures var sys := Execute(Start(capacity), schedule);
            && k in sys.subscribers
            && sys.subscribers[k].start == |Execute(Start(capacity), schedule[..n]).sent|
  {
    var front := schedule[..|schedule| - 1];
    if n < |schedule| - 1 {
      assert front[..n] == schedule[..n];
      SubscriptionStarts(capacity, front, n, k);
    }
  }

  /** A snapshot under a read guard has exactly the refs that are live, whatever was taken before. */
  lemma SnapshotIs(sys: System, k: nat, guard: nat)
    requires k in sys.subscribers && sys.lock.Shared? && guard in sys.lock.readers
    ensures Enabled(sys, TakeSnapshot(k, guard))
    ensures Inv(sys.state) ==>
              var snapshot := Next(sys, TakeSnapshot(k, guard)).subscribers[k].snapshot;
              && snapshot.Some? && snapshot.value.at == |sys.sent|
              && forall ref :: ref in snapshot.value.refs <==> Live(sys.state, ref)
  {
    assert Inv(sys.state) ==> forall ref :: ref in LiveRefs(sys.state) <==> Live(sys.state, ref);
  }

  /** A receiver gets the next event it has not had; one that fell behind loses just what the channel no longer keeps. */
  lemma ReceiveIs(sys: System, k: nat)
    requires k in sys.subscribers && sys.subscribers[k].cursor < |sys.sent|
    ensures Enabled(sys, Receive(k))
    ensures var before, after := sys.subscribers[k], Next(sys, Receive(k)).subscribers[k];
            if |sys.sent| - before.cursor <= sys.capacity
            then after.cursor == before.cursor + 1 && after.inbox == before.inbox + [sys.sent[before.cursor]]
            else |sys.sent| - after.cursor == sys.capacity && after.inbox == before.inbox
  {
  }

  /** Step `n` is a receive by `k` that finds more events waiting than the channel keeps. */
  ghost predicate FallsBehind(capacity: nat, schedule: seq<Step>, n: int, k: nat) {
    0 <= n < |schedule| && schedule[n] == Receive(k)
    && var sys := Execute(Start(capacity), schedule[..n]);
       k in sys.subscribers && |sys.sent| - sys.subscribers[k].cursor > capacity
  }

  lemma {:induction false} LaggedIff(capacity: nat, schedule: seq<Step>, k: nat)
    ensures var sys := Execute(Start(capacity), schedule);
            && sys.capacity == capacity
            && (k in sys.subscribers && sys.subscribers[k].lagged <==> exists n :: FallsBehind(capacity, schedule, n, k))
  {
    if schedule != [] {
      var front := schedule[..|schedule| - 1];
      LaggedIff(capacity, front, k);
      assert forall n :: 0 <= n < |front| ==> front[..n] == schedule[..n];
      if n :| FallsBehind(capacity, front, n, k) {
        assert FallsBehind(capacity, schedule, n, k);
      }
      if n :| FallsBehind(capacity, schedule, n, k) {
        assert n < |front| ==> FallsBehind(capacity, front, n, k);
      }
      assert FallsBehind(capacity, schedule, |front|, k)
        <==> schedule[|front|] == Receive(k) && k in Execute(Start(capacity), front).subscribers
             && |Execute(Start(capacity), front).sent| - Execute(Start(capacity), front).subscribers[k].cursor > capacity;
    }
  }

  /** A subscriber's picture: its snapshot, brought forward by everything it received. */
  function Picture(sub: Subscriber): set<EntityRef>
    requires sub.snapshot.Some?
  {
    Notice(sub.snapshot.value.refs, sub.inbox)
  }

  lemma PictureIsHistory(sent: seq<TopologyEvent>, sub: Subscriber)
    requires SubscriberInv(sent, sub) && sub.snapshot.Some? && !sub.lagged
    requires sub.snapshot.value.at <= sub.cursor
    ensures Picture(sub) == Notice({}, sent[..sub.cursor])
  {
    var at := sub.snapshot.value.at;
    OverlapIsHarmless({}, sent[..sub.start], sent[sub.start..at], sent[at..sub.cursor]);
    assert sent[..sub.start] + sent[sub.start..at] == sent[..at];
    assert sent[sub.start..at] + sent[at..sub.cursor] == sub.inbox;
    assert sent[..at] + sent[at..sub.cursor] == sent[..sub.cursor];
  }

  /**
   Subscribe first, snapshot at any later time, then apply every event received
   since subscribing: the picture of a subscriber that never lagged and has
   caught up is the live set, but for what a writer has yet to flush.
   */
  lemma SubscribersConverge(capacity: nat, schedule: seq<Step>, k: nat)
    requires var sys := Execute(Start(capacity), schedule);
             && k in sys.subscribers
             && sys.subscribers[k].snapshot.Some?
             && !sys.subscribers[k].lagged
             && sys.subscribers[k].cursor == |sys.sent|
    ensures var sys := Execute(Start(capacity), schedule);
            && Notice(Picture(sys.subscribers[k]), Pending(sys.lock)) == LiveRefs(sys.state)
            && (sys.lock.Shared? ==> Picture(sys.subscribers[k]) == LiveRefs(sys.state))
  {
    var sys := Execute(Start(capacity), schedule);
    SystemInvAlways(capacity, schedule);
    assert SubscriberInv(sys.sent, sys.subscribers[k]);
    PictureIsHistory(sys.sent, sys.subscribers[k]);
    assert sys.sent[..|sys.sent|] == sys.sent;
    ListedRefsReplay(NO_KEYS, sys.sent + Pending(sys.lock));
    NoticeConcat({}, sys.sent, Pending(sys.lock));
    assert ListedRefs(NO_KEYS) == {};
  }
}
