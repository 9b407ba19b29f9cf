/**
 The TLS accept loop as a state machine: the select loop, one spawned task per
 handshake, the permits of the semaphore and the bounded completion channel.
 A schedule is any sequence of steps; a step that is not enabled does nothing.
 */
module TlsListener {
  import opened Sequences

  /** Handshakes at a time, and also the capacity of the completion channel. */
  const MAX_PENDING_HANDSHAKES: nat := 256

  /** Where the caller is: outside `accept`, in its select, or in the pause after a TCP error. */
  datatype Phase = Outside | Selecting | Pausing

  /**
   Streams by place. `ending` are tasks that are done with their stream but
   still hold their permit; `completed` and `enqueued` are history.
   */
  datatype Listener = Listener(
    phase: Phase,
    permits: nat,
    arrived: set<nat>,
    rejected: set<nat>,
    handshaking: set<nat>,
    sending: set<nat>,
    queue: seq<nat>,
    returned: seq<nat>,
    failed: set<nat>,
    timedOut: set<nat>,
    ending: set<nat>,
    completed: set<nat>,
    enqueued: seq<nat>)

  function Wrap(): Listener {
    Listener(Outside, MAX_PENDING_HANDSHAKES, {}, {}, {}, {}, [], [], {}, {}, {}, {}, [])
  }

  datatype Step =
    | CallAccept
    | TcpAccepted(id: nat)
    | TcpError
    | Wake
    | Return
    | HandshakeOk(id: nat)
    | HandshakeErr(id: nat)
    | Timeout(id: nat)
    | Enqueue(id: nat)
    | TaskEnd(id: nat)

  predicate Enabled(l: Listener, step: Step) {
    match step
    case CallAccept => l.phase.Outside?
    case TcpAccepted(id) => l.phase.Selecting? && id !in l.arrived
    case TcpError => l.phase.Selecting?
    case Wake => l.phase.Pausing?
    case Return => l.phase.Selecting? && l.queue != []
    case HandshakeOk(id) => id in l.handshaking
    case HandshakeErr(id) => id in l.handshaking
    case Timeout(id) => id in l.handshaking
    case Enqueue(id) => id in l.sending && |l.queue| < MAX_PENDING_HANDSHAKES
    case TaskEnd(id) => id in l.ending
  }

  function Next(l: Listener, step: Step): Listener
    requires Enabled(l, step)
  {
    match step
    case CallAccept => l.(phase := Selecting)
    case TcpAccepted(id) =>
      if l.permits > 0
      then l.(arrived := l.arrived + {id}, permits := l.permits - 1, handshaking := l.handshaking + {id})
      else l.(arrived := l.arrived + {id}, rejected := l.rejected + {id})
    case TcpError => l.(phase := Pausing)
    case Wake => l.(phase := Selecting)
    case Return => l.(phase := Outside, queue := l.queue[1..], returned := l.returned + [l.queue[0]])
    case HandshakeOk(id) =>
      l.(handshaking := l.handshaking - {id}, sending := l.sending + {id}, completed := l.completed + {id})
    case HandshakeErr(id) =>
      l.(handshaking := l.handshaking - {id}, failed := l.failed + {id}, ending := l.ending + {id})
    case Timeout(id) =>
      l.(handshaking := l.handshaking - {id}, timedOut := l.timedOut + {id}, ending := l.ending + {id})
    case Enqueue(id) =>
      l.(sending := l.sending - {id}, queue := l.queue + [id], enqueued := l.enqueued + [id],
         ending := l.ending + {id})
    case TaskEnd(id) => l.(ending := l.ending - {id}, permits := l.permits + 1)
  }

  function Attempt(l: Listener, step: Step): Listener {
    if Enabled(l, step) then Next(l, step) else l
  }

  function Execute(l: Listener, schedule: seq<Step>): Listener {
    if schedule == [] then l
    else Attempt(Execute(l, schedule[..|schedule| - 1]), schedule[|schedule| - 1])
  }

  // ---- Conservation

  /** Every stream, once per place it is in. */
  function Places(l: Listener): multiset<nat> {
    multiset(l.rejected) + multiset(l.handshaking) + multiset(l.sending) + multiset(l.queue)
    + multiset(l.returned) + multiset(l.failed) + multiset(l.timedOut)
  }

  function LiveTasks(l: Listener): nat {
    |l.handshaking| + |l.sending| + |l.ending|
  }

  ghost predicate Conserved(l: Listener) {
    Places(l) == multiset(l.arrived)
  }

  ghost predicate Bounded(l: Listener) {
    && l.permits + LiveTasks(l) == MAX_PENDING_HANDSHAKES
    && |l.queue| <= MAX_PENDING_HANDSHAKES
    && l.ending !! l.handshaking && l.ending !! l.sending
    && l.handshaking <= l.arrived && l.sending <= l.arrived && l.ending <= l.arrived
    && l.handshaking !! l.sending
  }

  ghost predicate InOrder(l: Listener) {
    && l.enqueued == l.returned + l.queue
    && l.completed == l.sending + ToSet(l.enqueued)
  }

  ghost predicate Inv(l: Listener) {
    Conserved(l) && Bounded(l) && InOrder(l)
  }

  lemma AddOne(s: set<nat>, id: nat)
    requires id !in s
    ensures multiset(s + {id}) == multiset(s) + multiset{id}
  {
  }

  lemma TakeOne(s: set<nat>, id: nat)
    requires id in s
    ensures multiset(s) == multiset(s - {id}) + multiset{id}
  {
  }

  lemma AcceptConserves(l: Listener, id: nat)
    requires Conserved(l) && Enabled(l, TcpAccepted(id))
    ensures Conserved(Next(l, TcpAccepted(id)))
  {
    assert Places(l)[id] == 0;
    AddOne(l.arrived, id);
    if l.permits > 0 {
      AddOne(l.handshaking, id);
    } else {
      AddOne(l.rejected, id);
    }
  }

  lemma HandshakeEndConserves(l: Listener, id: nat, step: Step)
    requires Conserved(l) && id in l.handshaking
    requires step == HandshakeOk(id) || step == HandshakeErr(id) || step == Timeout(id)
    ensures Conserved(Next(l, step))
  {
    assert Places(l)[id] <= 1;
    TakeOne(l.handshaking, id);
    match step
    case HandshakeOk(_) => AddOne(l.sending, id);
    case HandshakeErr(_) => AddOne(l.failed, id);
    case Timeout(_) => AddOne(l.timedOut, id);
  }

  lemma NextConserves(l: Listener, step: Step)
    requires Conserved(l) && Enabled(l, step)
    ensures Conserved(Next(l, step))
  {
    match step
    case TcpAccepted(id) => AcceptConserves(l, id);
    case Return => assert l.queue == [l.queue[0]] + l.queue[1..];
    case HandshakeOk(id) => HandshakeEndConserves(l, id, step);
    case HandshakeErr(id) => HandshakeEndConserves(l, id, step);
    case Timeout(id) => HandshakeEndConserves(l, id, step);
    case Enqueue(id) => TakeOne(l.sending, id);
    case _ =>
  }

  lemma NextBounded(l: Listener, step: Step)
    requires Conserved(l) && Bounded(l) && Enabled(l, step)
    ensures Bounded(Next(l, step))
  {
  }

  lemma NextInOrder(l: Listener, step: Step)
    requires InOrder(l) && Enabled(l, step)
    ensures InOrder(Next(l, step))
  {
    match step
    case Return => assert l.queue == [l.queue[0]] + l.queue[1..];
    case Enqueue(id) => assert ToSet(l.enqueued + [id]) == ToSet(l.enqueued) + {id};
    case _ =>
  }

  /** In every reachable state: conservation of streams, of permits, and first-in first-out hand-over. */
  lemma {:induction false} InvAlways(schedule: seq<Step>)
    ensures Inv(Execute(Wrap(), schedule))
  {
    if schedule == [] {
      assert ToSet<nat>([]) == {};
    } else {
      var front, last := schedule[..|schedule| - 1], schedule[|schedule| - 1];
      InvAlways(front);
      var before := Execute(Wrap(), front);
      if Enabled(before, last) {
        NextKeepsInv(before, last);
      }
    }
  }

  // ---- The history fields are what happened

  /** Step `n` of the schedule is this one, and is taken. */
  ghost predicate Took(schedule: seq<Step>, n: int, step: Step) {
    0 <= n < |schedule| && schedule[n] == step && Enabled(Execute(Wrap(), schedule[..n]), step)
  }

  ghost predicate Happened(schedule: seq<Step>, step: Step) {
    exists n :: Took(schedule, n, step)
  }

  lemma TookEarlier(schedule: seq<Step>, n: int, step: Step)
    requires schedule != [] && n < |schedule| - 1
    ensures Took(schedule, n, step) <==> Took(schedule[..|schedule| - 1], n, step)
  {
    if n >= 0 {
      assert schedule[..|schedule| - 1][..n] == schedule[..n];
    }
  }

  lemma HappenedLast(schedule: seq<Step>, step: Step)
    requires schedule != []
    ensures var front, last := schedule[..|schedule| - 1], schedule[|schedule| - 1];
            Happened(schedule, step)
            <==> Happened(front, step) || (last == step && Enabled(Execute(Wrap(), front), step))
  {
    var front := schedule[..|schedule| - 1];
    if n :| Took(schedule, n, step) {
      if n < |front| {
        TookEarlier(schedule, n, step);
      }
    }
    if n :| Took(front, n, step) {
      TookEarlier(schedule, n, step);
      assert Took(schedule, n, step);
    }
    assert Took(schedule, |front|, step) <==> schedule[|front|] == step && Enabled(Execute(Wrap(), front), step);
  }

  /** A stream has arrived, or its handshake completed, failed or timed out, exactly when that happened to it. */
  lemma {:induction false} HistoryIs(schedule: seq<Step>, id: nat)
    ensures var l := Execute(Wrap(), schedule);
            && (id in l.arrived <==> Happened(schedule, TcpAccepted(id)))
            && (id in l.completed <==> Happened(schedule, HandshakeOk(id)))
            && (id in l.failed <==> Happened(schedule, HandshakeErr(id)))
            && (id in l.timedOut <==> Happened(schedule, Timeout(id)))
  {
    if schedule == [] {
      assert forall step :: !Happened([], step);
    } else {
      HistoryIs(schedule[..|schedule| - 1], id);
      HappenedLast(schedule, TcpAccepted(id));
      HappenedLast(schedule, HandshakeOk(id));
      HappenedLast(schedule, HandshakeErr(id));
      HappenedLast(schedule, Timeout(id));
    }
  }

  /** Step `n` accepts the stream while all 256 tasks are live. */
  ghost predicate FoundNoPermit(schedule: seq<Step>, n: int, id: nat) {
    Took(schedule, n, TcpAccepted(id)) && LiveTasks(Execute(Wrap(), schedule[..n])) == 256
  }

  /** A stream is turned away exactly when it arrives while 256 tasks are live. */
  lemma {:induction false} RejectedIff(schedule: seq<Step>, id: nat)
    ensures id in Execute(Wrap(), schedule).rejected <==> exists n :: FoundNoPermit(schedule, n, id)
  {
    if schedule != [] {
      var front := schedule[..|schedule| - 1];
      RejectedIff(front, id);
      InvAlways(front);
      if n :| FoundNoPermit(schedule, n, id) && n < |front| {
        TookEarlier(schedule, n, TcpAccepted(id));
        assert front[..n] == schedule[..n];
        assert FoundNoPermit(front, n, id);
      }
      if n :| FoundNoPermit(front, n, id) {
        TookEarlier(schedule, n, TcpAccepted(id));
        assert front[..n] == schedule[..n];
        assert FoundNoPermit(schedule, n, id);
      }
      assert FoundNoPermit(schedule, |front|, id)
        <==> schedule[|front|] == TcpAccepted(id) && Enabled(Execute(Wrap(), front), TcpAccepted(id))
             && LiveTasks(Execute(Wrap(), front)) == 256;
    }
  }

  /** The streams of the sends that were taken, in order. */
  function Sends(schedule: seq<Step>): seq<nat> {
    if schedule == [] then []
    else
      var front, last := schedule[..|schedule| - 1], schedule[|schedule| - 1];
      if last.Enqueue? && Enabled(Execute(Wrap(), front), last) then Sends(front) + [last.id] else Sends(front)
  }

  /** How many steps of one of three kinds were taken. */
  function Calls(schedule: seq<Step>): nat {
    if schedule == [] then 0
    else
      var front, last := schedule[..|schedule| - 1], schedule[|schedule| - 1];
      Calls(front) + if last.CallAccept? && Enabled(Execute(Wrap(), front), last) then 1 else 0
  }

  function TcpErrors(schedule: seq<Step>): nat {
    if schedule == [] then 0
    else
      var front, last := schedule[..|schedule| - 1], schedule[|schedule| - 1];
      TcpErrors(front) + if last.TcpError? && Enabled(Execute(Wrap(), front), last) then 1 else 0
  }

  function Wakes(schedule: seq<Step>): nat {
    if schedule == [] then 0
    else
      var front, last := schedule[..|schedule| - 1], schedule[|schedule| - 1];
      Wakes(front) + if last.Wake? && Enabled(Execute(Wrap(), front), last) then 1 else 0
  }

  /** Streams are queued as they were sent; each call of `accept` returns one stream; each TCP error pauses once. */
  lemma {:induction false} CallsReturnOne(schedule: seq<Step>)
    ensures var l := Execute(Wrap(), schedule);
            && l.enqueued == Sends(schedule)
            && Calls(schedule) == |l.returned| + (if l.phase.Outside? then 0 else 1)
            && TcpErrors(schedule) == Wakes(schedule) + (if l.phase.Pausing? then 1 else 0)
  {
    if schedule != [] {
      CallsReturnOne(schedule[..|schedule| - 1]);
    }
  }

  /**
   Every accepted stream is in exactly one place; none is returned twice, or
   without a handshake that completed and neither failed nor timed out; streams
   are returned in the order they were sent; at most 512 are held inside.
   */
  lemma EachStreamInOnePlace(schedule: seq<Step>, id: nat)
    ensures var l := Execute(Wrap(), schedule);
            && Places(l)[id] == (if Happened(schedule, TcpAccepted(id)) then 1 else 0)
            && multiset(l.returned)[id] <= 1
            && l.returned <= Sends(schedule)
            && (id in l.returned ==>
                  && Happened(schedule, HandshakeOk(id))
                  && !Happened(schedule, HandshakeErr(id)) && !Happened(schedule, Timeout(id))
                  && id !in l.rejected)
            && l.permits + LiveTasks(l) == 256
            && |l.handshaking| + |l.sending| + |l.queue| <= 512
  {
    InvAlways(schedule);
    HistoryIs(schedule, id);
    CallsReturnOne(schedule);
    var l := Execute(Wrap(), schedule);
    assert Places(l)[id] == multiset(l.arrived)[id];
    if id in l.returned {
      assert multiset(l.returned)[id] >= 1;
      assert id in l.enqueued;
    }
  }

  /** However many handshakes stall, the select takes a new connection, and turns it away only when all tasks are live. */
  lemma StalledHandshakesDoNotBlock(schedule: seq<Step>, id: nat)
    requires id !in Execute(Wrap(), schedule).arrived
    ensures var l := Execute(Wrap(), schedule);
            && (l.phase.Selecting? ==> Enabled(l, TcpAccepted(id)))
            && (l.phase.Outside? ==> Enabled(Attempt(l, CallAccept), TcpAccepted(id)))
            && (l.phase.Pausing? ==> Enabled(Attempt(l, Wake), TcpAccepted(id)))
            && (l.phase.Selecting? ==>
                  (id in Next(l, TcpAccepted(id)).rejected <==> LiveTasks(l) == 256))
  {
    InvAlways(schedule);
    assert Places(Execute(Wrap(), schedule))[id] == 0;
  }

  /** The select is open to any TCP event and to a completed handshake; a send waits only while 256 are queued. */
  lemma SelectIsOpen(l: Listener, id: nat)
    requires l.phase.Selecting?
    ensures Enabled(l, TcpError) && Next(l, TcpError) == l.(phase := Pausing)
    ensures id !in l.arrived ==> Enabled(l, TcpAccepted(id))
    ensures l.queue != [] ==> Enabled(l, Return) && Next(l, Return).returned == l.returned + [l.queue[0]]
    ensures id in l.sending ==> (Enabled(l, Enqueue(id)) <==> |l.queue| < 256)
    ensures id in l.handshaking ==> Enabled(l, HandshakeOk(id)) && Enabled(l, HandshakeErr(id)) && Enabled(l, Timeout(id))
    ensures id in l.ending ==> Enabled(l, TaskEnd(id))
  {
  }

  // ---- Draining

  /** Anything but a new TCP event. */
  predicate Quiet(step: Step) {
    !step.TcpAccepted? && !step.TcpError?
  }

  function Measure(l: Listener): nat {
    5 * |l.handshaking| + 4 * |l.sending| + 2 * |l.queue| + |l.ending| + if l.phase.Selecting? then 0 else 1
  }

  lemma QuietStepDecreases(l: Listener, step: Step)
    requires Inv(l) && Enabled(l, step) && Quiet(step)
    ensures Measure(Next(l, step)) < Measure(l)
  {
  }

  /** Nothing left inside, all permits back, and the caller waiting in `accept`. */
  predicate Drained(l: Listener) {
    && l.handshaking == {} && l.sending == {} && l.queue == [] && l.ending == {}
    && l.permits == MAX_PENDING_HANDSHAKES
    && l.phase.Selecting?
  }

  /** Short of that, some quiet step can be taken: no sender is stuck on a full channel. */
  lemma QuietStepExists(l: Listener) returns (step: Step)
    requires Inv(l) && !Drained(l)
    ensures Quiet(step) && Enabled(l, step)
  {
    if l.phase.Outside? {
      return CallAccept;
    } else if l.phase.Pausing? {
      return Wake;
    } else if l.queue != [] {
      return Return;
    } else if id :| id in l.handshaking {
      return Timeout(id);
    } else if id :| id in l.sending {
      return Enqueue(id);
    } else {
      assert l.ending != {};
      var id :| id in l.ending;
      return TaskEnd(id);
    }
  }

  /** A schedule of quiet steps that are all taken. */
  ghost predicate QuietRun(l: Listener, steps: seq<Step>) {
    forall n :: 0 <= n < |steps| ==> Quiet(steps[n]) && Enabled(Execute(l, steps[..n]), steps[n])
  }

  lemma NextKeepsInv(l: Listener, step: Step)
    requires Inv(l) && Enabled(l, step)
    ensures Inv(Next(l, step))
  {
    NextConserves(l, step);
    NextBounded(l, step);
    NextInOrder(l, step);
  }

  lemma {:induction false} QuietRunKeeps(l: Listener, steps: seq<Step>)
    requires Inv(l) && QuietRun(l, steps)
    ensures Inv(Execute(l, steps)) && Measure(Execute(l, steps)) + |steps| <= Measure(l)
    ensures Execute(l, steps).arrived == l.arrived
  {
    if steps != [] {
      var front, last := steps[..|steps| - 1], steps[|steps| - 1];
      assert forall n :: 0 <= n < |front| ==> front[..n] == steps[..n];
      QuietRunKeeps(l, front);
      NextKeepsInv(Execute(l, front), last);
      QuietStepDecreases(Execute(l, front), last);
    }
  }

  lemma {:induction false} ExecuteConcat(l: Listener, a: seq<Step>, b: seq<Step>)
    ensures Execute(l, a + b) == Execute(Execute(l, a), b)
  {
    if b == [] {
      assert a + b == a;
    } else {
      ExecuteConcat(l, a, b[..|b| - 1]);
      assert (a + b)[..|a + b| - 1] == a + b[..|b| - 1];
    }
  }

  /**
   From any reachable state, with no new TCP events and every handshake ending
   somehow, every run is at most `Measure` long, and it can go no further exactly
   when the listener is drained. By then each stream whose handshake completed has
   been returned, no other has, the order is that of the sends, and all permits
   are back.
   */
  lemma QuietRunsDrain(schedule: seq<Step>, steps: seq<Step>)
    requires QuietRun(Execute(Wrap(), schedule), steps)
    ensures |steps| <= Measure(Execute(Wrap(), schedule))
    ensures var l := Execute(Wrap(), schedule + steps);
            (forall step :: Quiet(step) ==> !Enabled(l, step)) <==> Drained(l)
    ensures var l := Execute(Wrap(), schedule + steps);
            Drained(l) ==>
              && l.returned == Sends(schedule + steps)
              && (forall id :: id in l.returned <==> Happened(schedule + steps, HandshakeOk(id)))
              && l.permits == 256
  {
    InvAlways(schedule);
    ExecuteConcat(Wrap(), schedule, steps);
    QuietRunKeeps(Execute(Wrap(), schedule), steps);
    StuckIffDrained(Execute(Wrap(), schedule + steps));
    if Drained(Execute(Wrap(), schedule + steps)) {
      DrainedReturnsAll(schedule + steps);
    }
  }

  lemma StuckIffDrained(l: Listener)
    requires Inv(l)
    ensures (forall step :: Quiet(step) ==> !Enabled(l, step)) <==> Drained(l)
  {
    if !Drained(l) {
      var step := QuietStepExists(l);
    }
  }

  lemma DrainedReturnsAll(schedule: seq<Step>)
    requires Drained(Execute(Wrap(), schedule))
    ensures var l := Execute(Wrap(), schedule);
            && l.returned == Sends(schedule)
            && (forall id :: id in l.returned <==> Happened(schedule, HandshakeOk(id)))
  {
    var l := Execute(Wrap(), schedule);
    InvAlways(schedule);
    CallsReturnOne(schedule);
    assert l.returned + [] == l.returned;
    forall id ensures id in l.returned <==> Happened(schedule, HandshakeOk(id)) {
      HistoryIs(schedule, id);
      assert id in ToSet(l.enqueued) <==> id in l.enqueued;
    }
  }

  /** A successful connection, from its arrival at an idle listener to its return. */
  lemma ConnectionIsReturned(l: Listener, id: nat)
    requires l.phase.Selecting? && l.permits > 0 && l.queue == []
    requires id !in l.arrived + l.handshaking + l.sending + l.ending
    ensures Execute(l, [TcpAccepted(id), HandshakeOk(id), Enqueue(id), TaskEnd(id), Return])
         == l.(phase := Outside, arrived := l.arrived + {id}, completed := l.completed + {id},
               enqueued := l.enqueued + [id], returned := l.returned + [id])
  {
    var l2 := Next(Next(l, TcpAccepted(id)), HandshakeOk(id));
    var first, second := [TcpAccepted(id), HandshakeOk(id)], [Enqueue(id), TaskEnd(id), Return];
    assert first + second == [TcpAccepted(id), HandshakeOk(id), Enqueue(id), TaskEnd(id), Return];
    ExecuteConcat(l, first, second);
    TwoSteps(l, TcpAccepted(id), HandshakeOk(id));
    ThreeSteps(l2, Enqueue(id), TaskEnd(id), Return);
    assert l.handshaking + {id} - {id} == l.handshaking && l.sending + {id} - {id} == l.sending;
    assert l.ending + {id} - {id} == l.ending && [id][1..] == [];
  }

  /** A connection whose handshake fails or takes too long gives its permit back and leaves nothing in the queue. */
  lemma ConnectionIsDropped(l: Listener, id: nat)
    requires l.phase.Selecting? && l.permits > 0
    requires id !in l.arrived + l.handshaking + l.sending + l.ending
    ensures Execute(l, [TcpAccepted(id), HandshakeErr(id), TaskEnd(id)])
         == l.(arrived := l.arrived + {id}, failed := l.failed + {id})
    ensures Execute(l, [TcpAccepted(id), Timeout(id), TaskEnd(id)])
         == l.(arrived := l.arrived + {id}, timedOut := l.timedOut + {id})
  {
    ThreeSteps(l, TcpAccepted(id), HandshakeErr(id), TaskEnd(id));
    ThreeSteps(l, TcpAccepted(id), Timeout(id), TaskEnd(id));
    assert l.handshaking + {id} - {id} == l.handshaking && l.ending + {id} - {id} == l.ending;
  }

  lemma TwoSteps(l: Listener, a: Step, b: Step)
    ensures Execute(l, [a, b]) == Attempt(Attempt(l, a), b)
  {
    assert [a, b][..1] == [a] && [a][..0] == [];
    assert Execute(l, [a]) == Attempt(l, a);
  }

  lemma ThreeSteps(l: Listener, a: Step, b: Step, c: Step)
    ensures Execute(l, [a, b, c]) == Attempt(Attempt(Attempt(l, a), b), c)
  {
    TwoSteps(l, a, b);
    assert [a, b, c][..2] == [a, b];
  }
}
