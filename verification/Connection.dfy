/**
 The request/response multiplexer (cli/src/connection.rs): senders, a writer
 task, a reader task, timeouts and drains sharing one table of waiters and one
 disconnected flag. `Table` is what the mutex guards; `State` adds the flag,
 the tasks and the requests, and steps one atomic section at a time.
 */
module Connection {
  import opened Common

  type Id = string

  /** A response frame as delivered to a waiter: the gateway's, or one made up by a drain. */
  datatype Frame =
    | Answer(id: Id, ok: bool, body: string)
    | Failure(id: Id, code: nat, message: string)

  /** The waiters by request id, and the frames sent into each waiter's one-shot channel so far. */
  datatype Table = Table(pending: set<Id>, delivered: map<Id, seq<Frame>>)

  function Sent(t: Table, id: Id): seq<Frame> {
    if id in t.delivered then t.delivered[id] else []
  }

  function Inserted(t: Table, id: Id): Table {
    Table(t.pending + {id}, t.delivered[id := []])
  }

  function Removed(t: Table, id: Id): Table {
    t.(pending := t.pending - {id})
  }

  function Delivered(t: Table, frame: Frame): Table {
    if frame.id in t.pending then
      Table(t.pending - {frame.id}, t.delivered[frame.id := Sent(t, frame.id) + [frame]])
    else t
  }

  function Drained(t: Table, code: nat, message: string): Table {
    Table({}, map id | id in t.delivered.Keys + t.pending ::
                if id in t.pending then Sent(t, id) + [Failure(id, code, message)] else t.delivered[id])
  }

  /** The table as the tasks update it, each method being one critical section. */
  class PendingRequests {
    var pending: set<Id>
    var delivered: map<Id, seq<Frame>>

    function Value(): Table
      reads this
    {
      Table(pending, delivered)
    }

    constructor ()
      ensures Value() == Table({}, map[])
    {
      pending, delivered := {}, map[];
    }

    method Insert(id: Id)
      modifies this
      ensures Value() == Inserted(old(Value()), id)
    {
      pending := pending + {id};
      delivered := delivered[id := []];
    }

    method Remove(id: Id)
      modifies this
      ensures Value() == Removed(old(Value()), id)
    {
      pending := pending - {id};
    }

    method HandleResponse(frame: Frame)
      modifies this
      ensures Value() == Delivered(old(Value()), frame)
    {
      if frame.id in pending {
        pending := pending - {frame.id};
        delivered := delivered[frame.id := Sent(Value(), frame.id) + [frame]];
      }
    }

    method FailAllPending(code: nat, message: string)
      requires pending <= delivered.Keys
      modifies this
      ensures Value() == Drained(old(Value()), code, message)
    {
      ghost var before := Value();
      while pending != {}
        invariant pending <= before.pending
        invariant delivered.Keys == before.delivered.Keys
        invariant forall id :: id in delivered ==>
                    delivered[id] == if id in before.pending - pending
                                     then before.delivered[id] + [Failure(id, code, message)]
                                     else before.delivered[id]
        decreases pending
      {
        var id :| id in pending;
        pending := pending - {id};
        delivered := delivered[id := delivered[id] + [Failure(id, code, message)]];
      }
    }
  }

  // ------------------------------------------------------------ the protocol

  const CHANNEL_CAPACITY := 32
  const WRITE_FAILED := "Connection closed while sending"
  const READ_ENDED := "Connection closed while waiting for response"

  datatype Outcome = Received(frame: Frame) | SendError | TimedOut | Cancelled

  /** How far a request has got. */
  datatype Phase =
    | PassedCheck   // saw the flag unset and has its id
    | InTable       // its waiter is in the table
    | SendFailing   // the channel refused its message; clean-up still to come
    | Waiting       // its message is queued
    | TimingOut     // its deadline passed; clean-up still to come
    | Finished(outcome: Outcome)

  /** A task that sees the socket fail stores the flag, drains, then ends. */
  datatype Task = Running | Flagged | Resolved | Stopped

  /** Why a waiter left the table. */
  datatype Fate = Answered | Failed | Expired | Unsent

  datatype State = State(
    table: Table,
    disconnected: bool,
    writer: Task,
    reader: Task,
    queue: seq<Option<Id>>,        // None: a message that is not a request
    phases: map<Id, Phase>,
    limited: set<Id>,              // requests with a deadline
    clock: nat,                    // steps taken so far
    checkedAt: map<Id, nat>,
    insertedAt: map<Id, nat>,
    flaggedAt: Option<nat>,
    writerDrain: Option<nat>,
    readerDrain: Option<nat>,
    fates: map<Id, Fate>)

  const INITIAL := State(Table({}, map[]), false, Running, Running, [],
      map[], {}, 0, map[], map[], None, None, None, map[])

  datatype Step =
    | Check(id: Id, deadline: bool)
    | Insert(id: Id)
    | Enqueue(id: Id)
    | EnqueueFails(id: Id)
    | EnqueueCleanup(id: Id)
    | EnqueueOther
    | WriteOk
    | WriteFails
    | WriterDrain
    | WriterStop
    | Respond(id: Id, ok: bool, body: string)
    | ReadEnds
    | ReaderDrain
    | Receive(id: Id)
    | Expire(id: Id)
    | ExpireCleanup(id: Id)
    | Cancel(id: Id)

  predicate InPhase(s: State, id: Id, p: Phase) {
    id in s.phases && s.phases[id] == p
  }

  predicate Enabled(s: State, step: Step) {
    match step
    case Check(id, _) => id !in s.phases && !s.disconnected
    case Insert(id) => InPhase(s, id, PassedCheck)
    case Enqueue(id) => InPhase(s, id, InTable) && s.writer != Stopped && |s.queue| < CHANNEL_CAPACITY
    case EnqueueFails(id) => InPhase(s, id, InTable) && s.writer == Stopped
    case EnqueueCleanup(id) => InPhase(s, id, SendFailing)
    case EnqueueOther => s.writer != Stopped && |s.queue| < CHANNEL_CAPACITY
    case WriteOk => s.writer == Running && s.queue != []
    case WriteFails => s.writer == Running && s.queue != []
    case WriterDrain => s.writer == Flagged
    case WriterStop => s.writer == Resolved
    case Respond(_, _, _) => s.reader == Running
    case ReadEnds => s.reader == Running
    case ReaderDrain => s.reader == Flagged
    case Receive(id) => InPhase(s, id, Waiting) && Sent(s.table, id) != []
    case Expire(id) => InPhase(s, id, Waiting) && id in s.limited && Sent(s.table, id) == []
    case ExpireCleanup(id) => InPhase(s, id, TimingOut)
    case Cancel(id) => id in s.phases && !s.phases[id].Finished?
  }

  function Flag(s: State): State {
    s.(disconnected := true, flaggedAt := if s.disconnected then s.flaggedAt else Some(s.clock))
  }

  /** Takes waiters out of the table and records why. */
  function Leave(s: State, ids: set<Id>, table: Table, fate: Fate): State {
    s.(table := table, fates := map id | id in s.fates.Keys + ids * s.table.pending ::
                                  if id in s.table.pending && id in ids then fate else s.fates[id])
  }

  function Drain(s: State, message: string): State {
    Leave(s, s.table.pending, Drained(s.table, 503, message), Failed)
  }

  function Apply(s: State, step: Step): State
    requires Enabled(s, step)
  {
    var t := s.(clock := s.clock + 1);
    match step
    case Check(id, deadline) =>
      t.(phases := s.phases[id := PassedCheck], checkedAt := s.checkedAt[id := s.clock],
         limited := if deadline then s.limited + {id} else s.limited)
    case Insert(id) =>
      t.(table := Inserted(s.table, id), phases := s.phases[id := InTable], insertedAt := s.insertedAt[id := s.clock])
    case Enqueue(id) => t.(queue := s.queue + [Some(id)], phases := s.phases[id := Waiting])
    case EnqueueFails(id) => t.(phases := s.phases[id := SendFailing])
    case EnqueueCleanup(id) =>
      Leave(t, {id}, Removed(s.table, id), Unsent).(phases := s.phases[id := Finished(SendError)])
    case EnqueueOther => t.(queue := s.queue + [None])
    case WriteOk => t.(queue := s.queue[1..])
    case WriteFails => Flag(s).(clock := s.clock + 1, queue := s.queue[1..], writer := Flagged)
    case WriterDrain => Drain(t, WRITE_FAILED).(writer := Resolved, writerDrain := Some(s.clock))
    case WriterStop => t.(writer := Stopped, queue := [])
    case Respond(id, ok, body) => Leave(t, {id}, Delivered(s.table, Answer(id, ok, body)), Answered)
    case ReadEnds => Flag(s).(clock := s.clock + 1, reader := Flagged)
    case ReaderDrain => Drain(t, READ_ENDED).(reader := Stopped, readerDrain := Some(s.clock))
    case Receive(id) => t.(phases := s.phases[id := Finished(Received(Sent(s.table, id)[0]))])
    case Expire(id) => t.(phases := s.phases[id := TimingOut])
    case ExpireCleanup(id) =>
      Leave(t, {id}, Removed(s.table, id), Expired).(phases := s.phases[id := Finished(TimedOut)])
    case Cancel(id) => t.(phases := s.phases[id := Finished(Cancelled)])
  }

  /** The state after an interleaving, if every step in it was possible. */
  function RunFrom(s: State, steps: seq<Step>): Option<State> {
    if steps == [] then Some(s)
    else
      match RunFrom(s, steps[..|steps| - 1])
      case None => None
      case Some(t) =>
        var step := steps[|steps| - 1];
        if Enabled(t, step) then Some(Apply(t, step)) else None
  }

  function Run(steps: seq<Step>): Option<State> {
    RunFrom(INITIAL, steps)
  }

  // -------------------------------------------------------------- invariants

  /** A waiter ever inserted is in the table or has left it, for one reason. */
  predicate InTableOrLeft(s: State, id: Id) {
    && (id in s.insertedAt <==> id in s.table.delivered)
    && (id in s.insertedAt <==> id in s.table.pending || id in s.fates)
    && !(id in s.table.pending && id in s.fates)
  }

  /** One frame with the waiter's own id if it was answered or failed, none otherwise. */
  predicate DeliveredOnce(s: State, id: Id) {
    if id in s.fates && s.fates[id].Answered? then
      |Sent(s.table, id)| == 1 && Sent(s.table, id)[0].Answer? && Sent(s.table, id)[0].id == id
    else if id in s.fates && s.fates[id].Failed? then
      |Sent(s.table, id)| == 1 && Sent(s.table, id)[0].Failure? &&
          Sent(s.table, id)[0].id == id && Sent(s.table, id)[0].code == 503
    else Sent(s.table, id) == []
  }

  /** Where the request stands agrees with the table. */
  predicate PhaseAgrees(s: State, id: Id) {
    && (id in s.insertedAt ==> id in s.phases)
    && (id in s.phases ==>
          match s.phases[id]
          case PassedCheck => id !in s.insertedAt
          case InTable => id in s.insertedAt
          case SendFailing => id in s.insertedAt && s.writer == Stopped
          case Waiting => id in s.insertedAt
          case TimingOut => id in s.insertedAt
          case Finished(Received(f)) => id in s.insertedAt && Sent(s.table, id) == [f]
          case Finished(SendError) => id in s.fates && s.writer == Stopped
          case Finished(TimedOut) => id in s.fates
          case Finished(Cancelled) => true)
    && (id in s.fates && s.fates[id].Unsent? ==> InPhase(s, id, Finished(SendError)))
    && (id in s.fates && s.fates[id].Expired? ==> InPhase(s, id, Finished(TimedOut)))
  }

  predicate After(time: nat, event: Option<nat>) {
    event.Some? ==> time > event.value
  }

  /** The request passed its check before the flag was set; if its waiter is in the table it
      came after every drain, and if a task resolved it, it came before that task's drain. */
  predicate TimesAgree(s: State, id: Id) {
    && (id in s.checkedAt <==> id in s.phases)
    && (id in s.checkedAt ==> s.checkedAt[id] < s.clock && (s.flaggedAt.Some? ==> s.checkedAt[id] < s.flaggedAt.value))
    && (id in s.insertedAt ==> s.insertedAt[id] < s.clock)
    && (id in s.table.pending && id in s.insertedAt ==>
          After(s.insertedAt[id], s.writerDrain) && After(s.insertedAt[id], s.readerDrain))
    && (id in s.insertedAt && id in s.fates && s.fates[id].Answered? && s.readerDrain.Some? ==>
          s.insertedAt[id] < s.readerDrain.value)
    && (id in s.insertedAt && id in s.fates && s.fates[id].Failed? ==>
          !After(s.insertedAt[id], s.writerDrain) || !After(s.insertedAt[id], s.readerDrain))
  }

  predicate RequestOk(s: State, id: Id) {
    InTableOrLeft(s, id) && DeliveredOnce(s, id) && PhaseAgrees(s, id) && TimesAgree(s, id)
  }

  /** The flag is set once a task has stopped running, and every drain comes after it. */
  predicate FlagBeforeDrain(s: State) {
    && (s.disconnected <==> s.writer != Running || s.reader != Running)
    && (s.disconnected <==> s.flaggedAt.Some?)
    && (s.writer in {Resolved, Stopped} <==> s.writerDrain.Some?)
    && (s.reader != Resolved && (s.reader == Stopped <==> s.readerDrain.Some?))
    && (s.flaggedAt.Some? ==> s.flaggedAt.value < s.clock)
    && (s.writerDrain.Some? ==> s.flaggedAt.Some? && s.flaggedAt.value < s.writerDrain.value < s.clock)
    && (s.readerDrain.Some? ==> s.flaggedAt.Some? && s.flaggedAt.value < s.readerDrain.value < s.clock)
  }

  ghost predicate Inv(s: State) {
    FlagBeforeDrain(s) && forall id :: RequestOk(s, id)
  }

  /** The steps by which a request gets going. */
  predicate SenderStep(step: Step) {
    step.Check? || step.Insert? || step.Enqueue? || step.EnqueueFails? || step.Expire? || step.Cancel?
  }

  /** The steps that end a request. */
  predicate EndingStep(step: Step) {
    step.EnqueueCleanup? || step.ExpireCleanup? || step.Receive? || step.Respond?
  }

  lemma SenderStepKeepsTable(s: State, step: Step, id: Id)
    requires SenderStep(step) && Enabled(s, step) && RequestOk(s, id)
    ensures InTableOrLeft(Apply(s, step), id) && DeliveredOnce(Apply(s, step), id)
  {
  }

  lemma EndingStepKeepsTable(s: State, step: Step, id: Id)
    requires EndingStep(step) && Enabled(s, step) && RequestOk(s, id)
    ensures InTableOrLeft(Apply(s, step), id) && DeliveredOnce(Apply(s, step), id)
  {
  }

  lemma TaskStepKeepsTable(s: State, step: Step, id: Id)
    requires !SenderStep(step) && !EndingStep(step) && Enabled(s, step) && RequestOk(s, id)
    ensures InTableOrLeft(Apply(s, step), id) && DeliveredOnce(Apply(s, step), id)
  {
  }

  lemma StepKeepsTable(s: State, step: Step, id: Id)
    requires Enabled(s, step) && RequestOk(s, id)
    ensures InTableOrLeft(Apply(s, step), id) && DeliveredOnce(Apply(s, step), id)
  {
    hide Enabled, Apply, InTableOrLeft, DeliveredOnce, PhaseAgrees, TimesAgree, FlagBeforeDrain;
    if SenderStep(step) {
      SenderStepKeepsTable(s, step, id);
    } else if EndingStep(step) {
      EndingStepKeepsTable(s, step, id);
    } else {
      TaskStepKeepsTable(s, step, id);
    }
  }

  lemma SenderStepKeepsPhase(s: State, step: Step, id: Id)
    requires SenderStep(step) && Enabled(s, step) && RequestOk(s, id)
    ensures PhaseAgrees(Apply(s, step), id)
  {
  }

  lemma EndingStepKeepsPhase(s: State, step: Step, id: Id)
    requires EndingStep(step) && Enabled(s, step) && RequestOk(s, id)
    ensures PhaseAgrees(Apply(s, step), id)
  {
  }

  lemma TaskStepKeepsPhase(s: State, step: Step, id: Id)
    requires !SenderStep(step) && !EndingStep(step) && Enabled(s, step) && RequestOk(s, id)
    ensures PhaseAgrees(Apply(s, step), id)
  {
  }

  lemma StepKeepsPhase(s: State, step: Step, id: Id)
    requires Enabled(s, step) && RequestOk(s, id)
    ensures PhaseAgrees(Apply(s, step), id)
  {
    hide Enabled, Apply, InTableOrLeft, DeliveredOnce, PhaseAgrees, TimesAgree, FlagBeforeDrain;
    if SenderStep(step) {
      SenderStepKeepsPhase(s, step, id);
    } else if EndingStep(step) {
      EndingStepKeepsPhase(s, step, id);
    } else {
      TaskStepKeepsPhase(s, step, id);
    }
  }

  lemma SenderStepKeepsTimes(s: State, step: Step, id: Id)
    requires SenderStep(step) && Enabled(s, step) && RequestOk(s, id) && FlagBeforeDrain(s)
    ensures TimesAgree(Apply(s, step), id)
  {
  }

  lemma EndingStepKeepsTimes(s: State, step: Step, id: Id)
    requires EndingStep(step) && Enabled(s, step) && RequestOk(s, id) && FlagBeforeDrain(s)
    ensures TimesAgree(Apply(s, step), id)
  {
  }

  lemma TaskStepKeepsTimes(s: State, step: Step, id: Id)
    requires !SenderStep(step) && !EndingStep(step) && Enabled(s, step) && RequestOk(s, id) && FlagBeforeDrain(s)
    ensures TimesAgree(Apply(s, step), id)
  {
  }

  lemma StepKeepsTimes(s: State, step: Step, id: Id)
    requires Enabled(s, step) && RequestOk(s, id) && FlagBeforeDrain(s)
    ensures TimesAgree(Apply(s, step), id)
  {
    hide Enabled, Apply, InTableOrLeft, DeliveredOnce, PhaseAgrees, TimesAgree, FlagBeforeDrain;
    if SenderStep(step) {
      SenderStepKeepsTimes(s, step, id);
    } else if EndingStep(step) {
      EndingStepKeepsTimes(s, step, id);
    } else {
      TaskStepKeepsTimes(s, step, id);
    }
  }

  lemma StepKeepsFlag(s: State, step: Step)
    requires Enabled(s, step) && FlagBeforeDrain(s)
    ensures FlagBeforeDrain(Apply(s, step))
  {
    hide Sent, Inserted, Removed, Delivered, Drained;
  }

  // ---------------------------------------------------- over all interleavings

  /** Every interleaving of senders, tasks and timeouts keeps the invariant. */
  lemma {:induction false} EveryRunKeepsInv(steps: seq<Step>)
    requires Run(steps).Some?
    ensures Inv(Run(steps).value)
  {
    if steps != [] {
      var before, step := steps[..|steps| - 1], steps[|steps| - 1];
      EveryRunKeepsInv(before);
      var s := Run(before).value;
      StepKeepsFlag(s, step);
      forall id ensures RequestOk(Apply(s, step), id) {
        assert RequestOk(s, id);
        StepKeepsTable(s, step, id);
        StepKeepsPhase(s, step, id);
        StepKeepsTimes(s, step, id);
      }
    }
  }

  function WithFate(s: State, fate: Fate): set<Id> {
    set id | id in s.fates && s.fates[id] == fate
  }

  /** The inserted ids are the disjoint union of those still pending, answered, failed by a
      drain, timed out and never sent. */
  lemma InsertedIdsArePartitioned(steps: seq<Step>)
    requires Run(steps).Some?
    ensures var s := Run(steps).value;
      && s.insertedAt.Keys ==
           s.table.pending + WithFate(s, Answered) + WithFate(s, Failed) + WithFate(s, Expired) + WithFate(s, Unsent)
      && s.table.pending !! WithFate(s, Answered) !! WithFate(s, Failed) !! WithFate(s, Expired) !! WithFate(s, Unsent)
  {
    EveryRunKeepsInv(steps);
    var s := Run(steps).value;
    forall id ensures id in s.insertedAt <==> id in s.table.pending || id in s.fates {
      assert RequestOk(s, id);
    }
    assert forall id :: id in s.table.pending ==> id !in s.fates by {
      forall id | id in s.table.pending ensures id !in s.fates { assert RequestOk(s, id); }
    }
  }

  /** No waiter is sent two frames, the frame it is sent carries its id, and that frame is what
      a request returns. */
  lemma OneFrameEach(steps: seq<Step>, id: Id)
    requires Run(steps).Some?
    ensures var s := Run(steps).value;
      && |Sent(s.table, id)| <= 1
      && (Sent(s.table, id) != [] ==> Sent(s.table, id)[0].id == id)
      && (id in s.phases && s.phases[id].Finished? && s.phases[id].outcome.Received? ==>
            Sent(s.table, id) == [s.phases[id].outcome.frame])
  {
    EveryRunKeepsInv(steps);
    assert RequestOk(Run(steps).value, id);
  }

  /** A request that waits has its waiter in the table or its frame ready: the channel is never
      closed under it, so the "closed while waiting" branch of the callers is unreachable. */
  lemma WaiterIsNeverDropped(steps: seq<Step>, id: Id)
    requires Run(steps).Some? && InPhase(Run(steps).value, id, Waiting)
    ensures id in Run(steps).value.table.pending || Sent(Run(steps).value.table, id) != []
  {
    EveryRunKeepsInv(steps);
    assert RequestOk(Run(steps).value, id);
  }

  /** A request that returns leaves nothing in the table; only an abandoned call can. */
  lemma ReturnedRequestsLeaveNoWaiter(steps: seq<Step>, id: Id)
    requires Run(steps).Some? && id in Run(steps).value.table.pending
    ensures id in Run(steps).value.phases
    ensures Run(steps).value.phases[id].Finished? ==> Run(steps).value.phases[id].outcome.Cancelled?
  {
    EveryRunKeepsInv(steps);
    assert RequestOk(Run(steps).value, id);
  }

  // ------------------------------------------------------- which frame it is

  /** A response to a waiter in the table is handed to it as it came. */
  lemma ResponseIsHandedOn(steps: seq<Step>, id: Id, ok: bool, body: string)
    requires Run(steps).Some? && id in Run(steps).value.table.pending
    requires Enabled(Run(steps).value, Respond(id, ok, body))
    ensures var t := Apply(Run(steps).value, Respond(id, ok, body));
      && id !in t.table.pending && t.table.delivered == Run(steps).value.table.delivered[id := [Answer(id, ok, body)]]
  {
    EveryRunKeepsInv(steps);
    assert RequestOk(Run(steps).value, id);
    assert Sent(Run(steps).value.table, id) + [Answer(id, ok, body)] == [Answer(id, ok, body)];
  }

  /** No response to the request at or after step `i`. */
  predicate NoResponseSince(steps: seq<Step>, id: Id, i: nat) {
    forall k :: i <= k < |steps| ==> !(steps[k].Respond? && steps[k].id == id)
  }

  /** The first response to the request after its waiter was inserted has this content. */
  ghost predicate FirstResponse(steps: seq<Step>, id: Id, ok: bool, body: string) {
    exists i, j :: 0 <= i < j < |steps| && ResponseAt(steps, id, ok, body, i, j)
  }

  predicate ResponseAt(steps: seq<Step>, id: Id, ok: bool, body: string, i: nat, j: nat)
    requires i < j < |steps|
  {
    steps[i] == Insert(id) && steps[j] == Respond(id, ok, body) && NoResponseSince(steps[..j], id, i)
  }

  /** Inserted, and no response since. */
  ghost predicate Unheard(steps: seq<Step>, id: Id) {
    exists i :: 0 <= i < |steps| && steps[i] == Insert(id) && NoResponseSince(steps, id, i)
  }

  /** The frames sent are explained by the steps. */
  ghost predicate FramesExplained(steps: seq<Step>, s: State, id: Id) {
    && (id in s.table.pending ==> Unheard(steps, id))
    && (id in s.fates && s.fates[id].Answered? ==>
          Sent(s.table, id) != [] && Sent(s.table, id)[0].Answer? &&
          FirstResponse(steps, id, Sent(s.table, id)[0].ok, Sent(s.table, id)[0].body))
  }

  lemma {:induction false} RunExplainsFrames(steps: seq<Step>, id: Id)
    requires Run(steps).Some?
    ensures FramesExplained(steps, Run(steps).value, id)
  {
    hide FramesExplained, Apply, Enabled, Inv;
    if steps == [] {
      NothingToExplain(id);
    } else {
      var before, step := steps[..|steps| - 1], steps[|steps| - 1];
      RunExplainsFrames(before, id);
      EveryRunKeepsInv(before);
      InvHolds(Run(before).value, id);
      StepExplainsFrames(before, Run(before).value, step, id);
      assert before + [step] == steps;
    }
  }

  lemma InvHolds(s: State, id: Id)
    requires Inv(s)
    ensures RequestOk(s, id)
  {
  }

  lemma NothingToExplain(id: Id)
    ensures FramesExplained([], INITIAL, id)
  {
  }

  lemma UnheardStays(steps: seq<Step>, step: Step, id: Id)
    requires Unheard(steps, id) && !(step.Respond? && step.id == id)
    ensures Unheard(steps + [step], id)
  {
    var i :| 0 <= i < |steps| && steps[i] == Insert(id) && NoResponseSince(steps, id, i);
    assert (steps + [step])[i] == Insert(id);
  }

  lemma FirstResponseStays(steps: seq<Step>, step: Step, id: Id, ok: bool, body: string)
    requires FirstResponse(steps, id, ok, body)
    ensures FirstResponse(steps + [step], id, ok, body)
  {
    var i, j :| 0 <= i < j < |steps| && ResponseAt(steps, id, ok, body, i, j);
    assert (steps + [step])[..j] == steps[..j];
    assert ResponseAt(steps + [step], id, ok, body, i, j);
  }

  lemma ResponseIsFirst(steps: seq<Step>, id: Id, ok: bool, body: string)
    requires Unheard(steps, id)
    ensures FirstResponse(steps + [Respond(id, ok, body)], id, ok, body)
  {
    var longer := steps + [Respond(id, ok, body)];
    var i :| 0 <= i < |steps| && steps[i] == Insert(id) && NoResponseSince(steps, id, i);
    assert longer[..|steps|] == steps;
    assert ResponseAt(longer, id, ok, body, i, |steps|);
  }

  lemma StepExplainsFrames(steps: seq<Step>, s: State, step: Step, id: Id)
    requires Enabled(s, step) && RequestOk(s, id) && FramesExplained(steps, s, id)
    ensures FramesExplained(steps + [step], Apply(s, step), id)
  {
    hide Unheard, FirstResponse, RequestOk;
    var t := Apply(s, step);
    StepOnOneWaiter(s, step, id);
    if id in t.table.pending {
      if step == Insert(id) {
        JustInserted(steps, id);
      } else {
        UnheardStays(steps, step, id);
      }
    }
    if id in t.fates && t.fates[id].Answered? {
      if id in s.fates {
        FirstResponseStays(steps, step, id, Sent(s.table, id)[0].ok, Sent(s.table, id)[0].body);
      } else {
        ResponseIsFirst(steps, id, step.ok, step.body);
      }
    }
  }

  lemma JustInserted(steps: seq<Step>, id: Id)
    ensures Unheard(steps + [Insert(id)], id)
  {
    assert (steps + [Insert(id)])[|steps|] == Insert(id);
  }

  /** How one step treats one waiter. */
  lemma StepOnOneWaiter(s: State, step: Step, id: Id)
    requires Enabled(s, step) && RequestOk(s, id)
    ensures var t := Apply(s, step);
      && (id in t.table.pending ==> step == Insert(id) || (id in s.table.pending && !(step.Respond? && step.id == id)))
      && (id in s.fates ==> id in t.fates && t.fates[id] == s.fates[id] && Sent(t.table, id) == Sent(s.table, id))
      && (id !in s.fates && id in t.fates && t.fates[id].Answered? ==>
            step.Respond? && step.id == id && id in s.table.pending &&
            Sent(t.table, id) == [Answer(id, step.ok, step.body)])
  {
    hide Drained;
    DrainedKeeps(s.table, 503, WRITE_FAILED, id);
    DrainedKeeps(s.table, 503, READ_ENDED, id);
  }

  lemma DrainedKeeps(t: Table, code: nat, message: string, id: Id)
    ensures Drained(t, code, message).pending == {}
    ensures id !in t.pending ==> Sent(Drained(t, code, message), id) == Sent(t, id)
  {
  }

  /** A request that returns an answer returns what the first response after its insertion said,
      and one that returns a failure was failed by a drain, with that drain's code and message. */
  lemma ReturnedFrameIsTheFirstResponse(steps: seq<Step>, id: Id)
    requires Run(steps).Some?
    requires id in Run(steps).value.phases && Run(steps).value.phases[id].Finished?
    requires Run(steps).value.phases[id].outcome.Received?
    ensures match Run(steps).value.phases[id].outcome.frame
      case Answer(i, ok, body) => i == id && FirstResponse(steps, id, ok, body)
      case Failure(i, code, message) => i == id && code == 503 && id in WithFate(Run(steps).value, Failed)
  {
    hide FirstResponse, Unheard;
    EveryRunKeepsInv(steps);
    assert RequestOk(Run(steps).value, id);
    RunExplainsFrames(steps, id);
  }

  // --------------------------------------------- why a request ended, and what was written

  /** What a request's outcome and the order of writing go back to. */
  ghost predicate CausesKnown(steps: seq<Step>, s: State, id: Id) {
    && (id in s.limited <==> Check(id, true) in steps)
    && (id in s.phases ==> Check(id, true) in steps || Check(id, false) in steps)
    && (InPhase(s, id, TimingOut) || InPhase(s, id, Finished(TimedOut)) ==> id in s.limited)
    && (InPhase(s, id, Finished(Cancelled)) ==> Cancel(id) in steps)
    && (id in s.insertedAt ==> Insert(id) in steps)
  }

  lemma {:induction false} RunKnowsCauses(steps: seq<Step>, id: Id)
    requires Run(steps).Some?
    ensures CausesKnown(steps, Run(steps).value, id)
  {
    hide CausesKnown, Apply, Enabled;
    if steps == [] {
      NoCauses(id);
    } else {
      var before, step := steps[..|steps| - 1], steps[|steps| - 1];
      RunKnowsCauses(before, id);
      StepKnowsCauses(before, Run(before).value, step, id);
      assert before + [step] == steps;
    }
  }

  lemma NoCauses(id: Id)
    ensures CausesKnown([], INITIAL, id)
  {
  }

  lemma StepKnowsCauses(steps: seq<Step>, s: State, step: Step, id: Id)
    requires Enabled(s, step) && CausesKnown(steps, s, id)
    ensures CausesKnown(steps + [step], Apply(s, step), id)
  {
    hide Enabled, Apply;
    assert forall x :: x in steps + [step] <==> x in steps || x == step;
    StepMovesOne(s, step, id);
  }

  /** What one step can do to what is known of one request. */
  lemma StepMovesOne(s: State, step: Step, id: Id)
    requires Enabled(s, step)
    ensures var t := Apply(s, step);
      && (id in t.limited <==> id in s.limited || step == Check(id, true))
      && (id in t.phases ==> id in s.phases || step == Check(id, true) || step == Check(id, false))
      && (InPhase(t, id, TimingOut) ==> InPhase(s, id, TimingOut) || id in s.limited)
      && (InPhase(t, id, Finished(TimedOut)) ==> InPhase(s, id, Finished(TimedOut)) || InPhase(s, id, TimingOut))
      && (InPhase(t, id, Finished(Cancelled)) ==> InPhase(s, id, Finished(Cancelled)) || step == Cancel(id))
      && (id in t.insertedAt ==> id in s.insertedAt || step == Insert(id))
  {
    hide Drained, Delivered, Inserted, Removed, Sent;
  }

  /** A request times out only if it was given a deadline, fails to be sent only after the writer
      has stopped, and is given up only by its caller. */
  lemma OutcomesHaveCauses(steps: seq<Step>, id: Id)
    requires Run(steps).Some? && id in Run(steps).value.phases && Run(steps).value.phases[id].Finished?
    ensures match Run(steps).value.phases[id].outcome
      case Received(_) => true
      case SendError => Run(steps).value.writer == Stopped
      case TimedOut => Check(id, true) in steps
      case Cancelled => Cancel(id) in steps
  {
    EveryRunKeepsInv(steps);
    assert RequestOk(Run(steps).value, id);
    RunKnowsCauses(steps, id);
  }

  /** A request that has ended stays as it ended, and one that exists is never started again. */
  lemma EndedStaysEnded(s: State, step: Step, id: Id)
    requires Enabled(s, step) && id in s.phases
    ensures id in Apply(s, step).phases
    ensures s.phases[id].Finished? ==> Apply(s, step).phases[id] == s.phases[id]
    ensures Apply(s, step).phases[id] == PassedCheck ==> s.phases[id] == PassedCheck
  {
    hide Drained, Delivered;
  }

  /** The messages handed to the channel, and those the writer took out to write, in order. */
  function Queued(steps: seq<Step>): seq<Option<Id>> {
    if steps == [] then []
    else
      Queued(steps[..|steps| - 1]) +
      match steps[|steps| - 1]
      case Enqueue(id) => [Some(id)]
      case EnqueueOther => [None]
      case _ => []
  }

  function Taken(steps: seq<Step>): nat {
    if steps == [] then 0
    else
      Taken(steps[..|steps| - 1]) +
      if steps[|steps| - 1].WriteOk? || steps[|steps| - 1].WriteFails? then 1 else 0
  }

  /** Until the writer stops, the channel holds exactly the messages not yet taken, in the order
      they were handed over, and never more than its capacity. */
  lemma {:induction false} MessagesAreTakenInOrder(steps: seq<Step>)
    requires Run(steps).Some?
    ensures Taken(steps) <= |Queued(steps)|
    ensures |Run(steps).value.queue| <= 32
    ensures if Run(steps).value.writer == Stopped then Run(steps).value.queue == []
            else Run(steps).value.queue == Queued(steps)[Taken(steps)..]
  {
    hide Apply, Enabled;
    if steps != [] {
      var before, step := steps[..|steps| - 1], steps[|steps| - 1];
      MessagesAreTakenInOrder(before);
      StepMovesQueue(Run(before).value, step);
    }
  }

  lemma StepMovesQueue(s: State, step: Step)
    requires Enabled(s, step)
    ensures var t := Apply(s, step);
      && (step.WriteOk? || step.WriteFails? ==> s.queue != [] && s.writer != Stopped && t.queue == s.queue[1..])
      && (step.Enqueue? ==> s.writer != Stopped && |s.queue| < CHANNEL_CAPACITY && t.queue == s.queue + [Some(step.id)])
      && (step.EnqueueOther? ==> s.writer != Stopped && |s.queue| < CHANNEL_CAPACITY && t.queue == s.queue + [None])
      && (step.WriterStop? ==> t.queue == [])
      && (!step.WriteOk? && !step.WriteFails? && !step.Enqueue? && !step.EnqueueOther? && !step.WriterStop? ==>
            t.queue == s.queue)
      && (t.writer == Stopped <==> s.writer == Stopped || step.WriterStop?)
  {
    hide Drained, Delivered;
  }

  // -------------------------------------------- the critical sections, replayed

  /** What a step does to the table the tasks share: one critical section, or nothing. */
  method Perform(t: PendingRequests, step: Step, ghost s: State)
    requires Enabled(s, step) && t.Value() == s.table && s.table.pending <= s.table.delivered.Keys
    modifies t
    ensures t.Value() == Apply(s, step).table
  {
    match step
    case Insert(id) => t.Insert(id);
    case EnqueueCleanup(id) => t.Remove(id);
    case ExpireCleanup(id) => t.Remove(id);
    case Respond(id, ok, body) => t.HandleResponse(Answer(id, ok, body));
    case WriterDrain => t.FailAllPending(503, WRITE_FAILED);
    case ReaderDrain => t.FailAllPending(503, READ_ENDED);
    case _ =>
  }

  lemma WaitersHaveChannels(s: State)
    requires Inv(s)
    ensures s.table.pending <= s.table.delivered.Keys
  {
    forall id | id in s.table.pending ensures id in s.table.delivered {
      assert RequestOk(s, id);
    }
  }

  /** Over any interleaving the shared table, updated one section at a time, is the table of
      the state machine. */
  method Replay(steps: seq<Step>) returns (t: PendingRequests)
    requires Run(steps).Some?
    ensures fresh(t) && t.Value() == Run(steps).value.table
  {
    hide Apply, Enabled, Inv;
    t := new PendingRequests();
    assert Run(steps[..0]) == Some(INITIAL) by { NothingYet(steps); }
    for i := 0 to |steps|
      invariant Run(steps[..i]).Some? && t.Value() == Run(steps[..i]).value.table
    {
      PrefixRuns(steps, i + 1);
      assert steps[..i + 1][..i] == steps[..i];
      EveryRunKeepsInv(steps[..i]);
      WaitersHaveChannels(Run(steps[..i]).value);
      Perform(t, steps[i], Run(steps[..i]).value);
    }
    assert steps[..|steps|] == steps;
  }

  lemma {:induction false} PrefixRuns(steps: seq<Step>, n: nat)
    requires Run(steps).Some? && n <= |steps|
    ensures Run(steps[..n]).Some?
    decreases |steps|
  {
    hide Apply, Enabled;
    if n < |steps| {
      assert steps[..|steps| - 1][..n] == steps[..n];
      PrefixRuns(steps[..|steps| - 1], n);
    } else {
      assert steps[..n] == steps;
    }
  }

  // ------------------------------------------------------ the flag and the drains

  lemma StepKeepsFlagSet(s: State, step: Step)
    requires Enabled(s, step) && s.disconnected
    ensures Apply(s, step).disconnected && Apply(s, step).flaggedAt == s.flaggedAt
  {
  }

  lemma {:induction false} FlagStaysSet(s: State, more: seq<Step>)
    requires s.disconnected && RunFrom(s, more).Some?
    ensures RunFrom(s, more).value.disconnected && RunFrom(s, more).value.flaggedAt == s.flaggedAt
  {
    if more != [] {
      FlagStaysSet(s, more[..|more| - 1]);
      StepKeepsFlagSet(RunFrom(s, more[..|more| - 1]).value, more[|more| - 1]);
    }
  }

  /** Once set, the flag stays set, and it is set before any waiter is failed. */
  lemma FlagIsMonotone(steps: seq<Step>, more: seq<Step>)
    requires Run(steps).Some? && RunFrom(Run(steps).value, more).Some?
    ensures Run(steps).value.disconnected ==> RunFrom(Run(steps).value, more).value.disconnected
    ensures WithFate(Run(steps).value, Failed) != {} ==> Run(steps).value.disconnected
  {
    var s := Run(steps).value;
    if s.disconnected {
      FlagStaysSet(s, more);
    }
    EveryRunKeepsInv(steps);
    if WithFate(s, Failed) != {} {
      var id :| id in WithFate(s, Failed);
      assert RequestOk(s, id);
    }
  }

  /** A drain resolves every waiter it finds, with a failure frame of the waiter's own id. */
  lemma DrainResolvesTheTable(steps: seq<Step>, step: Step, id: Id)
    requires Run(steps).Some? && (step.WriterDrain? || step.ReaderDrain?)
    requires Enabled(Run(steps).value, step)
    ensures var s, t := Run(steps).value, Apply(Run(steps).value, step);
      && t.table.pending == {}
      && (id in s.table.pending ==>
            Sent(t.table, id) == 
            [Failure(id, 503, if step.WriterDrain? then "Connection closed while sending"
                              else "Connection closed while waiting for response")])
      && (id !in s.table.pending ==> Sent(t.table, id) == Sent(s.table, id))
  {
    EveryRunKeepsInv(steps);
    assert RequestOk(Run(steps).value, id);
  }

  /** Once both tasks have drained, the table holds exactly the waiters inserted after both
      drains and not cleaned up by their own request since; each of them had passed the flag
      check before the flag was stored. */
  lemma WaitersAfterTheLastDrain(steps: seq<Step>, id: Id)
    requires Run(steps).Some?
    requires Run(steps).value.writerDrain.Some? && Run(steps).value.readerDrain.Some?
    ensures var s := Run(steps).value;
      && s.flaggedAt.Some?
      && (id in s.table.pending <==>
            id in s.insertedAt && After(s.insertedAt[id], s.writerDrain) && After(s.insertedAt[id], s.readerDrain) &&
            id !in WithFate(s, Expired) + WithFate(s, Unsent))
      && (id in s.table.pending ==> id in s.checkedAt && s.checkedAt[id] < s.flaggedAt.value < s.insertedAt[id])
  {
    EveryRunKeepsInv(steps);
    assert RequestOk(Run(steps).value, id);
  }

  // ------------------------------------------------------ which requests are answered

  /** The request's waiter has been in the table. */
  predicate PastInsertion(s: State, id: Id) {
    id in s.phases && s.phases[id] != PassedCheck
  }

  /** The reader has drained, and the writer has too or has seen no failure yet: only a write
      that fails can still resolve a waiter. */
  predicate OnlyAWriteFailureResolves(s: State) {
    s.reader == Stopped && s.writer != Flagged
  }

  /** What a request that has no frame yet does without a frame ever arriving. */
  predicate Unanswered(s: State, id: Id) {
    PastInsertion(s, id) && Sent(s.table, id) == [] && !(s.phases[id].Finished? && s.phases[id].outcome.Received?)
  }

  lemma QuietStep(s: State, step: Step, id: Id)
    requires Enabled(s, step) && OnlyAWriteFailureResolves(s) && PastInsertion(s, id) && !step.WriteFails?
    ensures OnlyAWriteFailureResolves(Apply(s, step)) && PastInsertion(Apply(s, step), id)
    ensures Sent(Apply(s, step).table, id) == Sent(s.table, id)
    ensures s.writer != Running ==> Apply(s, step).writer != Running
  {
    hide Drained;
  }

  lemma QuietRequestStep(s: State, step: Step, id: Id)
    requires Enabled(s, step) && OnlyAWriteFailureResolves(s) && Unanswered(s, id) && !step.WriteFails?
    ensures Unanswered(Apply(s, step), id)
    ensures InPhase(s, id, Finished(Cancelled)) ==> InPhase(Apply(s, step), id, Finished(Cancelled))
    ensures InPhase(s, id, Waiting) && id !in s.limited ==>
              InPhase(Apply(s, step), id, Waiting) || InPhase(Apply(s, step), id, Finished(Cancelled))
    ensures id !in s.limited ==> id !in Apply(s, step).limited
  {
    hide Drained;
    QuietStep(s, step, id);
  }

  /** From such a state on, a continuation in which no write fails sends no frame. */
  lemma {:induction false} NothingArrivesWithoutAWriteFailure(s: State, more: seq<Step>, id: Id)
    requires OnlyAWriteFailureResolves(s) && PastInsertion(s, id) && RunFrom(s, more).Some?
    requires s.writer == Running ==> WriteFails !in more
    ensures var t := RunFrom(s, more).value;
      && OnlyAWriteFailureResolves(t) && PastInsertion(t, id)
      && Sent(t.table, id) == Sent(s.table, id)
      && (s.writer != Running ==> t.writer != Running)
  {
    hide Apply, Enabled, Sent;
    if more != [] {
      var before, step := more[..|more| - 1], more[|more| - 1];
      NothingArrivesWithoutAWriteFailure(s, before, id);
      if step.WriteFails? {
        OnlyARunningWriterFails(RunFrom(s, before).value, step);
      }
      QuietStep(RunFrom(s, before).value, step, id);
    }
  }

  lemma OnlyARunningWriterFails(s: State, step: Step)
    requires Enabled(s, step) && step.WriteFails?
    ensures s.writer == Running
  {
  }

  lemma {:induction false} StaysUnanswered(s: State, more: seq<Step>, id: Id)
    requires OnlyAWriteFailureResolves(s) && Unanswered(s, id) && RunFrom(s, more).Some?
    requires s.writer == Running ==> WriteFails !in more
    ensures var t := RunFrom(s, more).value;
      && Unanswered(t, id)
      && (InPhase(s, id, Waiting) && id !in s.limited ==>
            id !in t.limited && (InPhase(t, id, Waiting) || InPhase(t, id, Finished(Cancelled))))
  {
    hide Apply, Enabled, Sent;
    if more != [] {
      var before, step := more[..|more| - 1], more[|more| - 1];
      StaysUnanswered(s, before, id);
      NothingArrivesWithoutAWriteFailure(s, before, id);
      if step.WriteFails? {
        OnlyARunningWriterFails(RunFrom(s, before).value, step);
      }
      QuietRequestStep(RunFrom(s, before).value, step, id);
    }
  }

  /** After this continuation the request has returned with a frame. */
  predicate Returns(s: State, more: seq<Step>, id: Id) {
    var t := RunFrom(s, more);
    t.Some? && id in t.value.phases && t.value.phases[id].Finished? && t.value.phases[id].outcome.Received?
  }

  /** Both tasks have drained and the waiter is in the table. */
  predicate Abandoned(s: State, id: Id) {
    s.writerDrain.Some? && s.readerDrain.Some? && id in s.table.pending
  }

  /** A waiting request can still be answered exactly when it is not abandoned. */
  lemma AnswerableExactly(steps: seq<Step>, id: Id)
    requires Run(steps).Some? && InPhase(Run(steps).value, id, Waiting)
    ensures (exists more :: Returns(Run(steps).value, more, id)) <==> !Abandoned(Run(steps).value, id)
  {
    hide Apply, Enabled, Returns;
    var s := Run(steps).value;
    EveryRunKeepsInv(steps);
    assert RequestOk(s, id);
    if Abandoned(s, id) {
      forall more ensures !Returns(s, more, id) {
        AbandonedNeverReturns(s, more, id);
      }
    } else {
      var more := Answering(s, id);
      assert Returns(s, more, id);
    }
  }

  lemma AbandonedNeverReturns(s: State, more: seq<Step>, id: Id)
    requires FlagBeforeDrain(s) && RequestOk(s, id) && InPhase(s, id, Waiting) && Abandoned(s, id)
    ensures !Returns(s, more, id)
  {
    if RunFrom(s, more).Some? {
      StaysUnanswered(s, more, id);
    }
  }

  lemma ResponseArrives(s: State, id: Id)
    requires s.reader == Running && id in s.table.pending
    ensures Enabled(s, Respond(id, true, ""))
    ensures var t := Apply(s, Respond(id, true, "")); t.phases == s.phases && Sent(t.table, id) != []
  {
  }

  lemma DrainArrives(s: State, step: Step, id: Id)
    requires (step.ReaderDrain? || step.WriterDrain?) && Enabled(s, step)
    requires id in s.table.pending
    ensures Apply(s, step).phases == s.phases && Sent(Apply(s, step).table, id) != []
  {
  }

  lemma FrameIsReceived(s: State, id: Id)
    requires InPhase(s, id, Waiting) && Sent(s.table, id) != []
    ensures Enabled(s, Receive(id))
    ensures Apply(s, Receive(id)).phases == s.phases[id := Finished(Received(Sent(s.table, id)[0]))]
  {
  }

  /** A continuation that answers: the response, or else the drain still to come. */
  lemma Answering(s: State, id: Id) returns (more: seq<Step>)
    requires FlagBeforeDrain(s) && RequestOk(s, id) && InPhase(s, id, Waiting) && !Abandoned(s, id)
    ensures Returns(s, more, id)
  {
    hide RunFrom, Apply, Sent, RequestOk;
    more := UntilFramed(s, id);
    var t := RunFrom(s, more).value;
    FrameIsReceived(t, id);
    more := OneMore(s, more, t, Receive(id));
  }

  lemma UntilFramed(s: State, id: Id) returns (more: seq<Step>)
    requires FlagBeforeDrain(s) && RequestOk(s, id) && InPhase(s, id, Waiting) && !Abandoned(s, id)
    ensures RunFrom(s, more).Some?
    ensures InPhase(RunFrom(s, more).value, id, Waiting) && Sent(RunFrom(s, more).value.table, id) != []
  {
    hide Apply, Sent, TimesAgree;
    if Sent(s.table, id) != [] {
      more := [];
    } else if s.reader == Running {
      ResponseArrives(s, id);
      more := OneMore(s, [], s, Respond(id, true, ""));
    } else if s.reader == Flagged {
      DrainArrives(s, ReaderDrain, id);
      more := OneMore(s, [], s, ReaderDrain);
    } else {
      more := UntilWriterDrain(s, id);
    }
  }

  /** A message to write, if none is queued, then a failing write, then the writer's drain. */
  lemma UntilWriterDrain(s: State, id: Id) returns (more: seq<Step>)
    requires s.writer == Running || s.writer == Flagged
    requires InPhase(s, id, Waiting) && id in s.table.pending && Sent(s.table, id) == []
    ensures RunFrom(s, more).Some?
    ensures InPhase(RunFrom(s, more).value, id, Waiting) && Sent(RunFrom(s, more).value.table, id) != []
  {
    hide Sent;
    more := [];
    var t := s;
    if s.writer == Running {
      if s.queue == [] {
        more := OneMore(s, more, t, EnqueueOther);
        t := Apply(t, EnqueueOther);
      }
      more := OneMore(s, more, t, WriteFails);
      t := Apply(t, WriteFails);
    }
    DrainArrives(t, WriterDrain, id);
    more := OneMore(s, more, t, WriterDrain);
  }

  lemma OneMore(s: State, more: seq<Step>, t: State, step: Step) returns (longer: seq<Step>)
    requires RunFrom(s, more) == Some(t) && Enabled(t, step)
    ensures longer == more + [step] && RunFrom(s, longer) == Some(Apply(t, step))
  {
    longer := more + [step];
    assert longer[..|more|] == more;
  }

  /** An abandoned request without a deadline waits forever, unless its caller gives up. */
  lemma StuckForever(steps: seq<Step>, more: seq<Step>, id: Id)
    requires Run(steps).Some? && RunFrom(Run(steps).value, more).Some?
    requires InPhase(Run(steps).value, id, Waiting) && id !in Run(steps).value.limited
    requires Abandoned(Run(steps).value, id)
    ensures var t := RunFrom(Run(steps).value, more).value;
      InPhase(t, id, Waiting) || InPhase(t, id, Finished(Cancelled))
  {
    EveryRunKeepsInv(steps);
    assert RequestOk(Run(steps).value, id);
    StaysUnanswered(Run(steps).value, more, id);
  }

  /** With only the reader drained, a waiter in the table is in the same position until a
      write fails: the flag bars new requests, and nothing else resolves it. */
  lemma StuckUntilAWriteFails(steps: seq<Step>, more: seq<Step>, id: Id)
    requires Run(steps).Some? && RunFrom(Run(steps).value, more).Some?
    requires InPhase(Run(steps).value, id, Waiting) && id in Run(steps).value.table.pending
    requires Run(steps).value.readerDrain.Some? && Run(steps).value.writer == Running
    ensures Returns(Run(steps).value, more, id) ==> WriteFails in more
    ensures WriteFails !in more && id !in Run(steps).value.limited ==>
      var t := RunFrom(Run(steps).value, more).value;
      InPhase(t, id, Waiting) || InPhase(t, id, Finished(Cancelled))
  {
    EveryRunKeepsInv(steps);
    assert RequestOk(Run(steps).value, id);
    if WriteFails !in more {
      StaysUnanswered(Run(steps).value, more, id);
    }
  }

  /** The interleaving that opens the window: the check, both drains, the insertion, and the
      send just before the writer drops its end of the channel. */
  const WINDOW: seq<Step> := [
    Check("r", false), EnqueueOther, ReadEnds, ReaderDrain,
    WriteFails, WriterDrain, Insert("r"), Enqueue("r"), WriterStop
  ]

  lemma WindowBeforeDrains() returns (s: State)
    ensures Run(WINDOW[..2]) == Some(s)
    ensures s.writer == Running && s.reader == Running && s.queue == [None]
    ensures InPhase(s, "r", PassedCheck) && s.limited == {}
  {
    var s1 := RunStep(WINDOW, 0, INITIAL);
    s := RunStep(WINDOW, 1, s1);
  }

  lemma WindowReaderDone() returns (s: State)
    ensures Run(WINDOW[..4]) == Some(s)
    ensures s.writer == Running && s.reader == Stopped && s.queue == [None] && s.readerDrain.Some?
    ensures InPhase(s, "r", PassedCheck) && s.limited == {}
  {
    hide Run, RunFrom, Drained;
    var s2 := WindowBeforeDrains();
    assert WINDOW[2] == ReadEnds && WINDOW[3] == ReaderDrain;
    var s3 := RunStep(WINDOW, 2, s2);
    assert s3.writer == Running && s3.reader == Flagged && s3.queue == [None];
    s := RunStep(WINDOW, 3, s3);
  }

  lemma WindowWriterDone() returns (s: State)
    ensures Run(WINDOW[..6]) == Some(s)
    ensures s.writer == Resolved && s.queue == [] && s.readerDrain.Some? && s.writerDrain.Some?
    ensures InPhase(s, "r", PassedCheck) && s.limited == {}
  {
    hide Run, RunFrom, Drained;
    var s4 := WindowReaderDone();
    assert WINDOW[4] == WriteFails && WINDOW[5] == WriterDrain;
    var s5 := RunStep(WINDOW, 4, s4);
    assert s5.writer == Flagged && s5.reader == Stopped && s5.queue == [];
    s := RunStep(WINDOW, 5, s5);
  }

  /** That state can be reached, so not every accepted request is answered. */
  lemma WindowIsReachable()
    ensures Run(WINDOW).Some?
    ensures var s := Run(WINDOW).value;
      InPhase(s, "r", Waiting) && "r" !in s.limited && Abandoned(s, "r")
  {
    hide Run, RunFrom;
    var s6 := WindowWriterDone();
    assert WINDOW[6] == Insert("r") && WINDOW[7] == Enqueue("r") && WINDOW[8] == WriterStop;
    var s7 := RunStep(WINDOW, 6, s6);
    var s8 := RunStep(WINDOW, 7, s7);
    var s9 := RunStep(WINDOW, 8, s8);
    assert WINDOW[..9] == WINDOW;
  }

  /** A reader that ends while the writer still works opens the window as well: a request that
      passed its check before is written out, and nobody reads the response. */
  const READER_WINDOW: seq<Step> := [Check("r", false), ReadEnds, ReaderDrain, Insert("r"), Enqueue("r"), WriteOk]

  lemma ReaderWindowAfterCheck() returns (s: State)
    ensures Run(READER_WINDOW[..1]) == Some(s)
    ensures s.writer == Running && s.reader == Running && s.queue == []
    ensures InPhase(s, "r", PassedCheck) && s.limited == {}
  {
    hide Run, RunFrom;
    assert READER_WINDOW[0] == Check("r", false);
    NothingYet(READER_WINDOW);
    s := RunStep(READER_WINDOW, 0, INITIAL);
  }

  lemma ReaderWindowBeforeInsert() returns (s: State)
    ensures Run(READER_WINDOW[..3]) == Some(s)
    ensures s.writer == Running && s.reader == Stopped && s.queue == [] && s.readerDrain.Some?
    ensures InPhase(s, "r", PassedCheck) && s.limited == {}
  {
    hide Run, RunFrom, Drained;
    assert READER_WINDOW[1] == ReadEnds && READER_WINDOW[2] == ReaderDrain;
    var s1 := ReaderWindowAfterCheck();
    var s2 := RunStep(READER_WINDOW, 1, s1);
    assert s2.writer == Running && s2.reader == Flagged && s2.queue == [];
    s := RunStep(READER_WINDOW, 2, s2);
  }

  lemma ReaderWindowIsReachable()
    ensures Run(READER_WINDOW).Some?
    ensures var s := Run(READER_WINDOW).value;
      && s.writer == Running && s.queue == [] && s.readerDrain.Some?
      && InPhase(s, "r", Waiting) && "r" in s.table.pending && "r" !in s.limited
  {
    hide Run, RunFrom;
    var steps := READER_WINDOW;
    assert steps[3] == Insert("r") && steps[4] == Enqueue("r") && steps[5] == WriteOk;
    var s3 := ReaderWindowBeforeInsert();
    var s4 := RunStep(steps, 3, s3);
    var s5 := RunStep(steps, 4, s4);
    var s6 := RunStep(steps, 5, s5);
    assert steps[..6] == steps;
  }

  lemma NothingYet(steps: seq<Step>)
    ensures Run(steps[..0]) == Some(INITIAL)
  {
  }

  lemma RunStep(steps: seq<Step>, n: nat, s: State) returns (t: State)
    requires n < |steps| && Run(steps[..n]) == Some(s) && Enabled(s, steps[n])
    ensures t == Apply(s, steps[n]) && Run(steps[..n + 1]) == Some(t)
  {
    assert steps[..n + 1][..n] == steps[..n];
    t := Apply(s, steps[n]);
  }
}
