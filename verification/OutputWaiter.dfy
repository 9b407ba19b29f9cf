/**
 Waiting for a line of a process's output: the background reader and one waiter,
 which share a list of lines, a lock, an event and a closed flag.
 */
module OutputWaiter {
  import opened Sequences

  type Pattern = Text -> bool

  // ---- The waiter's drain, as it runs while it holds the lock

  class ProcessUnderTest {
    var output: seq<Text>
    var readPos: nat

    constructor ()
      ensures output == [] && readPos == 0
    {
      output, readPos := [], 0;
    }

    /** Examines unread lines in order up to the first match. */
    method Drain(pattern: Pattern) returns (found: Option<nat>)
      requires readPos <= |output|
      modifies this`readPos
      ensures found.Some? ==>
                && old(readPos) <= found.value < |output|
                && pattern(output[found.value])
                && readPos == found.value + 1
                && forall i :: old(readPos) <= i < found.value ==> !pattern(output[i])
      ensures found.None? ==>
                readPos == |output| && forall i :: old(readPos) <= i < |output| ==> !pattern(output[i])
    {
      while readPos < |output|
        invariant old(readPos) <= readPos <= |output|
        invariant forall i :: old(readPos) <= i < readPos ==> !pattern(output[i])
      {
        var line := output[readPos];
        readPos := readPos + 1;
        if pattern(line) {
          return Some(readPos - 1);
        }
      }
      return None;
    }
  }

  // ---- Reader and waiter as a state machine

  /** `Announcing` and `Closing` are between changing the shared state and setting the event. */
  datatype Reader = Reading | Announcing | Closing | Finished

  /** The points of the waiter's loop; it holds the lock while `Draining`. */
  datatype Waiter = Idle | Clearing | Locking | Draining | CheckingClosed | CheckingTime | Blocked

  /** How a call ended, for lines `from .. until`. */
  datatype Outcome =
    | Matched(pattern: Pattern, from: nat, until: nat)
    | Exited(pattern: Pattern, from: nat, until: nat)
    | TimedOut(pattern: Pattern, from: nat, until: nat)

  /** `pattern` and `from` belong to the current call; `examined` and `outcomes` are history. */
  datatype System = System(
    output: seq<Text>,
    readPos: nat,
    event: bool,
    closed: bool,
    reader: Reader,
    waiter: Waiter,
    pattern: Pattern,
    from: nat,
    examined: seq<nat>,
    outcomes: seq<Outcome>)

  function Spawned(): System {
    System([], 0, false, false, Reading, Idle, (_: Text) => false, 0, [], [])
  }

  datatype Step =
    | Append(line: Text)
    | Announce
    | Close
    | AnnounceClose
    | WaitFor(pattern: Pattern)
    | Clear
    | Acquire
    | Examine
    | DrainEnds
    | LookClosed
    | LookTime(expired: bool)
    | WakeUp
    | WaitExpires

  /** The reader appends under the lock; everything else it does takes no lock. */
  predicate Enabled(p: System, step: Step) {
    match step
    case Append(_) => p.reader.Reading? && !p.waiter.Draining?
    case Announce => p.reader.Announcing?
    case Close => p.reader.Reading?
    case AnnounceClose => p.reader.Closing?
    case WaitFor(_) => p.waiter.Idle?
    case Clear => p.waiter.Clearing?
    case Acquire => p.waiter.Locking?
    case Examine => p.waiter.Draining? && p.readPos < |p.output|
    case DrainEnds => p.waiter.Draining? && p.readPos >= |p.output|
    case LookClosed => p.waiter.CheckingClosed?
    case LookTime(_) => p.waiter.CheckingTime?
    case WakeUp => p.waiter.Blocked? && p.event
    case WaitExpires => p.waiter.Blocked?
  }

  function Next(p: System, step: Step): System
    requires Enabled(p, step)
  {
    match step
    case Append(line) => p.(output := p.output + [line], reader := Announcing)
    case Announce => p.(event := true, reader := Reading)
    case Close => p.(closed := true, reader := Closing)
    case AnnounceClose => p.(event := true, reader := Finished)
    case WaitFor(pattern) => p.(waiter := Clearing, pattern := pattern, from := p.readPos)
    case Clear => p.(event := false, waiter := Locking)
    case Acquire => p.(waiter := Draining)
    case Examine =>
      var next := p.(readPos := p.readPos + 1, examined := p.examined + [p.readPos]);
      if p.pattern(p.output[p.readPos])
      then next.(waiter := Idle, outcomes := p.outcomes + [Matched(p.pattern, p.from, p.readPos + 1)])
      else next
    case DrainEnds => p.(waiter := CheckingClosed)
    case LookClosed =>
      if p.closed
      then p.(waiter := Idle, outcomes := p.outcomes + [Exited(p.pattern, p.from, p.readPos)])
      else p.(waiter := CheckingTime)
    case LookTime(expired) =>
      if expired
      then p.(waiter := Idle, outcomes := p.outcomes + [TimedOut(p.pattern, p.from, p.readPos)])
      else p.(waiter := Blocked)
    case WakeUp => p.(waiter := Clearing)
    case WaitExpires => p.(waiter := Clearing)
  }

  function Attempt(p: System, step: Step): System {
    if Enabled(p, step) then Next(p, step) else p
  }

  function Execute(p: System, schedule: seq<Step>): System
    decreases |schedule|
  {
    if |schedule| == 0 then p
    else Attempt(Execute(p, schedule[..|schedule| - 1]), schedule[|schedule| - 1])
  }

  // ---- No wake-up is lost

  predicate AboutToSet(p: System) {
    p.reader.Announcing? || p.reader.Closing?
  }

  /** Past the drain, an unread line has set the event or is about to; past the closed check, so has a close. */
  ghost predicate Awake(p: System) {
    && (p.waiter.CheckingClosed? || p.waiter.CheckingTime? || p.waiter.Blocked? ==>
          (p.readPos < |p.output| ==> p.event || AboutToSet(p)))
    && (p.waiter.CheckingTime? || p.waiter.Blocked? ==> (p.closed ==> p.event || AboutToSet(p)))
    && (p.closed <==> p.reader.Closing? || p.reader.Finished?)
  }

  // ---- Lines are examined once, in order

  ghost predicate NoMatch(p: System, pattern: Pattern, from: nat, until: nat) {
    from <= until <= |p.output| && forall i :: from <= i < until ==> !pattern(p.output[i])
  }

  /** A match is the first since the call began; a call without one saw no match. */
  ghost predicate OutcomeTrue(p: System, o: Outcome) {
    match o
    case Matched(pattern, from, until) =>
      from < until <= |p.output| && NoMatch(p, pattern, from, until - 1) && pattern(p.output[until - 1])
    case Exited(pattern, from, until) => NoMatch(p, pattern, from, until)
    case TimedOut(pattern, from, until) => NoMatch(p, pattern, from, until)
  }

  function Ended(outcomes: seq<Outcome>): nat {
    if |outcomes| == 0 then 0 else outcomes[|outcomes| - 1].until
  }

  /** The outcomes so far are true, and each call began where the one before it ended. */
  ghost predicate OutcomesInOrder(p: System) {
    && (forall k :: 0 <= k < |p.outcomes| ==> OutcomeTrue(p, p.outcomes[k]))
    && (forall k :: 0 < k < |p.outcomes| ==> p.outcomes[k].from == p.outcomes[k - 1].until)
    && (|p.outcomes| > 0 ==> p.outcomes[0].from == 0)
  }

  ghost predicate InOrder(p: System) {
    && p.readPos <= |p.output|
    && p.examined == seq(p.readPos, i => i)
    && OutcomesInOrder(p)
    && (if p.waiter.Idle? then Ended(p.outcomes) == p.readPos
        else p.from == Ended(p.outcomes) && NoMatch(p, p.pattern, p.from, p.readPos))
  }

  lemma NextAwake(p: System, step: Step)
    requires Awake(p) && Enabled(p, step)
    requires p.readPos <= |p.output|
    ensures Awake(Next(p, step))
  {
  }

  lemma OutcomesStay(p: System, q: System)
    requires p.output <= q.output
    requires forall k :: 0 <= k < |p.outcomes| ==> OutcomeTrue(p, p.outcomes[k])
    ensures forall k :: 0 <= k < |p.outcomes| ==> OutcomeTrue(q, p.outcomes[k])
  {
    forall k | 0 <= k < |p.outcomes| ensures OutcomeTrue(q, p.outcomes[k]) {
      assert OutcomeTrue(p, p.outcomes[k]);
      assert forall i :: 0 <= i < |p.output| ==> p.output[i] == q.output[i];
    }
  }

  lemma OneMoreExamined(n: nat)
    ensures seq(n + 1, i => i) == seq(n, i => i) + [n]
  {
  }

  lemma ExamineMatch(p: System)
    requires InOrder(p) && Enabled(p, Examine) && p.pattern(p.output[p.readPos])
    ensures InOrder(Next(p, Examine))
  {
    var q := Next(p, Examine);
    OutcomesStay(p, q);
    OneMoreExamined(p.readPos);
    assert OutcomeTrue(q, Matched(p.pattern, p.from, p.readPos + 1));
  }

  lemma ExamineMiss(p: System)
    requires InOrder(p) && Enabled(p, Examine) && !p.pattern(p.output[p.readPos])
    ensures InOrder(Next(p, Examine))
  {
    var q := Next(p, Examine);
    assert OutcomesInOrder(q) by {
      OutcomesStay(p, q);
    }
    OneMoreExamined(p.readPos);
    assert NoMatch(q, p.pattern, p.from, p.readPos + 1);
  }

  /** A call that ends without a match. */
  lemma GivingUpInOrder(p: System, step: Step)
    requires InOrder(p) && Enabled(p, step) && (step.LookClosed? || step.LookTime?)
    ensures InOrder(Next(p, step))
  {
    var q := Next(p, step);
    OutcomesStay(p, q);
    assert OutcomeTrue(q, Exited(p.pattern, p.from, p.readPos));
    assert OutcomeTrue(q, TimedOut(p.pattern, p.from, p.readPos));
  }

  lemma NextInOrder(p: System, step: Step)
    requires InOrder(p) && Enabled(p, step)
    ensures InOrder(Next(p, step))
  {
    match step
    case Examine =>
      if p.pattern(p.output[p.readPos]) { ExamineMatch(p); } else { ExamineMiss(p); }
    case LookClosed => GivingUpInOrder(p, step);
    case LookTime(_) => GivingUpInOrder(p, step);
    case _ => OutcomesStay(p, Next(p, step));
  }

  lemma {:induction false} InvAlways(schedule: seq<Step>)
    ensures Awake(Execute(Spawned(), schedule)) && InOrder(Execute(Spawned(), schedule))
    decreases |schedule|
  {
    if |schedule| == 0 {
      assert seq(0, i => i) == [];
    } else {
      var front, last := schedule[..|schedule| - 1], schedule[|schedule| - 1];
      InvAlways(front);
      if Enabled(Execute(Spawned(), front), last) {
        NextAwake(Execute(Spawned(), front), last);
        NextInOrder(Execute(Spawned(), front), last);
      }
    }
  }

  /** A blocked waiter with a line to read or a close to see can wake now, or once the reader has taken its next step. */
  lemma NoLostWakeUp(schedule: seq<Step>)
    ensures var p := Execute(Spawned(), schedule);
            p.waiter.Blocked? && (p.readPos < |p.output| || p.closed) ==>
              || Enabled(p, WakeUp)
              || (p.reader.Announcing? && Enabled(Attempt(p, Announce), WakeUp))
              || (p.reader.Closing? && Enabled(Attempt(p, AnnounceClose), WakeUp))
  {
    InvAlways(schedule);
  }

  /**
   Across all calls each line is examined at most once and in order, calls pick
   up where the last one ended, and a match is the first since the call began.
   */
  lemma CallsReadInOrder(schedule: seq<Step>)
    ensures var p := Execute(Spawned(), schedule);
            && p.examined == seq(p.readPos, i => i) && p.readPos <= |p.output|
            && (forall k :: 0 <= k < |p.outcomes| ==>
                  && OutcomeTrue(p, p.outcomes[k])
                  && p.outcomes[k].from == if k == 0 then 0 else p.outcomes[k - 1].until)
  {
    InvAlways(schedule);
  }

  // ---- How calls end

  /** The step is taken after the schedule. */
  ghost predicate TakenAfter(schedule: seq<Step>, step: Step) {
    Enabled(Execute(Spawned(), schedule), step)
  }

  /** This step, taken in this state, ends the call as `o` says. */
  ghost predicate Ends(p: System, step: Step, o: Outcome) {
    match o
    case Matched(pattern, from, until) =>
      && step.Examine? && p.readPos < |p.output| && p.pattern(p.output[p.readPos])
      && pattern == p.pattern && from == p.from && until == p.readPos + 1
    case Exited(pattern, from, until) =>
      step.LookClosed? && p.closed && pattern == p.pattern && from == p.from && until == p.readPos
    case TimedOut(pattern, from, until) =>
      step.LookTime? && step.expired && pattern == p.pattern && from == p.from && until == p.readPos
  }

  /** A step either ends the call in one of the three ways, which is recorded, or the outcomes stay as they are. */
  lemma StepEnds(p: System, step: Step)
    requires Enabled(p, step)
    ensures var q := Next(p, step);
            || (exists o :: Ends(p, step, o) && q.outcomes == p.outcomes + [o] && q.waiter.Idle?)
            || (q.outcomes == p.outcomes && forall o :: !Ends(p, step, o))
  {
    var q := Next(p, step);
    if q.waiter.Idle? && !p.waiter.Idle? {
      var o := q.outcomes[|p.outcomes|];
      assert Ends(p, step, o) && q.outcomes == p.outcomes + [o];
    }
  }

  /** Step `n` of the schedule, taken, ended the call number `k`. */
  ghost predicate EndedBy(schedule: seq<Step>, n: int, k: nat) {
    0 <= n < |schedule|
    && var p := Execute(Spawned(), schedule[..n]);
       && Enabled(p, schedule[n]) && |p.outcomes| == k
       && k < |Execute(Spawned(), schedule).outcomes|
       && Ends(p, schedule[n], Execute(Spawned(), schedule).outcomes[k])
  }

  /**
   Over every schedule: a call is reported as exited only where the closed flag is
   looked at and up, as timed out only where the deadline is looked at and past,
   as matched only where a line that matches is examined.
   */
  lemma {:induction false} OutcomesHaveCauses(schedule: seq<Step>, k: nat)
    requires k < |Execute(Spawned(), schedule).outcomes|
    ensures exists n :: EndedBy(schedule, n, k)
    decreases |schedule|
  {
    var front, last := schedule[..|schedule| - 1], schedule[|schedule| - 1];
    var p := Execute(Spawned(), front);
    if Enabled(p, last) {
      StepEnds(p, last);
    }
    if k < |p.outcomes| {
      OutcomesHaveCauses(front, k);
      var n :| EndedBy(front, n, k);
      assert front[..n] == schedule[..n];
      assert EndedBy(schedule, n, k);
    } else {
      assert EndedBy(schedule, |front|, k);
    }
  }

  /** Without the flag the waiter goes on to the deadline, and without that to waiting; with it, or late, it gives up. */
  lemma ChecksThenWaits(p: System)
    requires p.waiter.CheckingClosed?
    ensures Enabled(p, LookClosed)
    ensures p.closed ==> Next(p, LookClosed).outcomes == p.outcomes + [Exited(p.pattern, p.from, p.readPos)]
    ensures !p.closed ==>
              var q := Next(p, LookClosed);
              && q.outcomes == p.outcomes && Enabled(q, LookTime(false)) && Enabled(q, LookTime(true))
              && Next(q, LookTime(false)) == p.(waiter := Blocked)
              && Next(q, LookTime(true)).outcomes == p.outcomes + [TimedOut(p.pattern, p.from, p.readPos)]
              && Next(q, LookTime(true)).waiter.Idle?
  {
  }

  /** While the waiter holds the lock the lines stay as they are; that is all that ever keeps an open reader from appending. */
  lemma LockExcludes(p: System, step: Step, line: Text)
    requires Enabled(p, step)
    ensures p.waiter.Draining? ==> Next(p, step).output == p.output
    ensures p.reader.Reading? && !p.waiter.Draining? ==> Enabled(p, Append(line)) && Enabled(p, Close)
    ensures p.reader.Announcing? ==> Enabled(p, Announce)
    ensures p.reader.Closing? ==> Enabled(p, AnnounceClose)
  {
  }

  /** A waiter in a call is never stuck: it can examine or end its drain, and a wait ends by itself if by nothing else. */
  lemma WaiterMoves(p: System, pattern: Pattern)
    ensures p.waiter.Idle? ==> Enabled(p, WaitFor(pattern)) && Next(p, WaitFor(pattern)).pattern == pattern
    ensures p.waiter.Clearing? ==> Enabled(p, Clear)
    ensures p.waiter.Locking? ==> Enabled(p, Acquire)
    ensures p.waiter.Draining? ==> (if p.readPos < |p.output| then Enabled(p, Examine) else Enabled(p, DrainEnds))
    ensures p.waiter.Blocked? ==> Enabled(p, WaitExpires) && (p.event ==> Enabled(p, WakeUp))
  {
  }

  // ---- The shared state is what the steps say

  /** The lines the reader has appended, in order. */
  ghost function Appended(schedule: seq<Step>): seq<Text>
    decreases |schedule|
  {
    if |schedule| == 0 then []
    else
      var front, last := schedule[..|schedule| - 1], schedule[|schedule| - 1];
      if last.Append? && TakenAfter(front, last) then Appended(front) + [last.line] else Appended(front)
  }

  /** The event was set after it was last cleared. */
  ghost predicate SetSinceClear(schedule: seq<Step>)
    decreases |schedule|
  {
    |schedule| > 0
    && var front, last := schedule[..|schedule| - 1], schedule[|schedule| - 1];
       if (last.Announce? || last.AnnounceClose?) && TakenAfter(front, last) then true
       else if last.Clear? && TakenAfter(front, last) then false
       else SetSinceClear(front)
  }

  ghost predicate EverClosed(schedule: seq<Step>)
    decreases |schedule|
  {
    |schedule| > 0
    && var front, last := schedule[..|schedule| - 1], schedule[|schedule| - 1];
       (last.Close? && TakenAfter(front, last)) || EverClosed(front)
  }

  lemma NextShared(p: System, step: Step)
    requires Enabled(p, step)
    ensures Next(p, step).output == if step.Append? then p.output + [step.line] else p.output
    ensures Next(p, step).event == if step.Announce? || step.AnnounceClose? then true else p.event && !step.Clear?
    ensures Next(p, step).closed == (p.closed || step.Close?)
  {
  }

  /** Output, event and flag are what the taken steps made them. */
  lemma {:induction false} SharedStateIs(schedule: seq<Step>)
    ensures Execute(Spawned(), schedule).output == Appended(schedule)
    ensures Execute(Spawned(), schedule).event == SetSinceClear(schedule)
    ensures Execute(Spawned(), schedule).closed == EverClosed(schedule)
    decreases |schedule|
  {
    if |schedule| > 0 {
      var front, last := schedule[..|schedule| - 1], schedule[|schedule| - 1];
      var p := Execute(Spawned(), front);
      SharedStateIs(front);
      assert Execute(Spawned(), schedule) == Attempt(p, last);
      if Enabled(p, last) {
        NextShared(p, last);
      }
    }
  }

  // ---- The waiter's loop, in the order of its lines

  predicate IsWaiters(step: Step) {
    !step.Append? && !step.Announce? && !step.Close? && !step.AnnounceClose?
  }

  /** The waiter's last step so far. */
  ghost function Previous(schedule: seq<Step>): Option<Step>
    decreases |schedule|
  {
    if |schedule| == 0 then None
    else
      var front, last := schedule[..|schedule| - 1], schedule[|schedule| - 1];
      if IsWaiters(last) && TakenAfter(front, last) then Some(last) else Previous(front)
  }

  /** What a step of the waiter comes right after. */
  predicate MayFollow(previous: Option<Step>, step: Step) {
    match step
    case WaitFor(_) => previous.None? || previous.value.Examine? || previous.value.LookClosed? || previous.value.LookTime?
    case Clear => previous.Some? && (previous.value.WaitFor? || previous.value.WakeUp? || previous.value.WaitExpires?)
    case Acquire => previous.Some? && previous.value.Clear?
    case Examine => previous.Some? && (previous.value.Acquire? || previous.value.Examine?)
    case DrainEnds => previous.Some? && (previous.value.Acquire? || previous.value.Examine?)
    case LookClosed => previous.Some? && previous.value.DrainEnds?
    case LookTime(_) => previous.Some? && previous.value.LookClosed?
    case WakeUp => previous.Some? && previous.value.LookTime? && !previous.value.expired
    case WaitExpires => previous.Some? && previous.value.LookTime? && !previous.value.expired
    case _ => true
  }

  ghost predicate AtPoint(p: System, previous: Option<Step>) {
    match p.waiter
    case Idle => previous.None? || previous.value.Examine? || previous.value.LookClosed? || previous.value.LookTime?
    case Clearing => previous.Some? && (previous.value.WaitFor? || previous.value.WakeUp? || previous.value.WaitExpires?)
    case Locking => previous.Some? && previous.value.Clear?
    case Draining => previous.Some? && (previous.value.Acquire? || previous.value.Examine?)
    case CheckingClosed => previous.Some? && previous.value.DrainEnds?
    case CheckingTime => previous.Some? && previous.value.LookClosed?
    case Blocked => previous.Some? && previous.value.LookTime? && !previous.value.expired
  }

  lemma {:induction false} WaiterIsAtPoint(schedule: seq<Step>)
    ensures AtPoint(Execute(Spawned(), schedule), Previous(schedule))
    decreases |schedule|
  {
    if |schedule| > 0 {
      WaiterIsAtPoint(schedule[..|schedule| - 1]);
    }
  }

  /** The event is cleared before each drain, the flag looked at after it, the deadline after that, and only then does it wait. */
  lemma LoopOrder(schedule: seq<Step>, step: Step)
    requires TakenAfter(schedule, step)
    ensures MayFollow(Previous(schedule), step)
  {
    WaiterIsAtPoint(schedule);
  }

  // ---- Giving up too early

  /** Between the end of a drain and the waiter's look at the closed flag, only the reader moves. */
  ghost predicate ReaderSteps(steps: seq<Step>) {
    forall step :: step in steps ==> step.Append? || step.Announce? || step.Close? || step.AnnounceClose?
  }

  lemma {:induction false} ReaderOnly(p: System, steps: seq<Step>)
    requires ReaderSteps(steps) && Awake(p)
    ensures var q := Execute(p, steps);
            && Awake(q) && p.output <= q.output && (p.closed ==> q.closed && q.output == p.output)
            && q == p.(output := q.output, event := q.event, closed := q.closed, reader := q.reader)
    decreases |steps|
  {
    if |steps| > 0 {
      var front, last := steps[..|steps| - 1], steps[|steps| - 1];
      assert last in steps && forall step :: step in front ==> step in steps;
      ReaderOnly(p, front);
    }
  }

  /** A waiter that finds the flag up reports an exit, having examined just the lines that were there when its drain ended. */
  lemma ExitIsReported(schedule: seq<Step>, steps: seq<Step>)
    requires Enabled(Execute(Spawned(), schedule), DrainEnds) && ReaderSteps(steps)
    requires Execute(Next(Execute(Spawned(), schedule), DrainEnds), steps).closed
    ensures var drained := Execute(Spawned(), schedule);
            var p := Execute(Next(drained, DrainEnds), steps);
            && Enabled(p, LookClosed)
            && Next(p, LookClosed).outcomes == p.outcomes + [Exited(p.pattern, p.from, |drained.output|)]
            && NoMatch(p, p.pattern, p.from, |drained.output|)
  {
    var drained := Execute(Spawned(), schedule);
    InvAlways(schedule);
    NextAwake(drained, DrainEnds);
    ReaderOnly(Next(drained, DrainEnds), steps);
  }

  /** No line since the call began matches, examined or not. */
  ghost predicate NothingMatches(p: System) {
    NoMatch(p, p.pattern, p.from, |p.output|)
  }

  /** However the reader goes on until the waiter finds the flag up, a report of an exit will be right. */
  ghost predicate ReportWillBeRight(drained: System)
    requires Enabled(drained, DrainEnds)
  {
    forall steps :: ReaderSteps(steps) && Execute(Next(drained, DrainEnds), steps).closed
                    ==> NothingMatches(Execute(Next(drained, DrainEnds), steps))
  }

  /**
   At the end of a drain, a report of an exit is bound to be right exactly when
   the closed flag is up by then, for a pattern that any line can match at all.
   */
  lemma ExitIsFinalIff(schedule: seq<Step>)
    requires Enabled(Execute(Spawned(), schedule), DrainEnds)
    ensures var drained := Execute(Spawned(), schedule);
            ReportWillBeRight(drained) <==> drained.closed || forall line: Text :: !drained.pattern(line)
  {
    var drained := Execute(Spawned(), schedule);
    InvAlways(schedule);
    if drained.closed || forall line: Text :: !drained.pattern(line) {
      forall steps | ReaderSteps(steps) ensures NothingMatches(Execute(Next(drained, DrainEnds), steps)) {
        ReaderOnly(Next(drained, DrainEnds), steps);
      }
    } else {
      var line: Text :| drained.pattern(line);
      var steps := LateLine(Next(drained, DrainEnds), line);
    }
  }

  /** Until it closes, the reader can still print any line and then close. */
  lemma LateLine(p: System, line: Text) returns (steps: seq<Step>)
    requires Awake(p) && !p.closed && !p.waiter.Draining? && p.from <= |p.output| && p.pattern(line)
    ensures ReaderSteps(steps) && Execute(p, steps).closed && !NothingMatches(Execute(p, steps))
  {
    steps := (if p.reader.Announcing? then [Announce] else []) + [Append(line), Announce, Close];
    var n := |steps| - 3;
    ExecuteOne(p, steps, n);
    ExecuteOne(p, steps, n + 1);
    ExecuteOne(p, steps, n + 2);
    if n > 0 {
      ExecuteOne(p, steps, 0);
    }
    assert steps[..|steps|] == steps && steps[..0] == [];
    var q := Execute(p, steps);
    assert q.output == p.output + [line] && q.output[|p.output|] == line;
  }

  function IsReady(): Pattern {
    (line: Text) => line == "ready"
  }

  /** The reader prints the awaited line and closes between the waiter's drain and its look at the closed flag. */
  lemma ExitCanMissAMatch()
    ensures var p := Execute(Spawned(), [WaitFor(IsReady()), Clear, Acquire, DrainEnds,
                                         Append("ready"), Announce, Close, LookClosed]);
            p.outcomes == [Exited(IsReady(), 0, 0)] && p.output == ["ready"] && IsReady()(p.output[0])
  {
    var schedule := [WaitFor(IsReady()), Clear, Acquire, DrainEnds, Append("ready"), Announce, Close, LookClosed];
    var p0 := Spawned();
    assert schedule[..0] == [];
    ExecuteOne(p0, schedule, 0);
    ExecuteOne(p0, schedule, 1);
    ExecuteOne(p0, schedule, 2);
    ExecuteOne(p0, schedule, 3);
    ExecuteOne(p0, schedule, 4);
    ExecuteOne(p0, schedule, 5);
    ExecuteOne(p0, schedule, 6);
    ExecuteOne(p0, schedule, 7);
    assert schedule[..8] == schedule;
  }

  lemma ExecuteOne(p: System, schedule: seq<Step>, n: nat)
    requires n < |schedule|
    ensures Execute(p, schedule[..n + 1]) == Attempt(Execute(p, schedule[..n]), schedule[n])
  {
    assert schedule[..n + 1][..n] == schedule[..n];
  }
}
