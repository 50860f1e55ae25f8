/** The life of one timer, activity, local activity or external signal, over every run. */
module WorkflowOperations {
  import opened WorkflowQueries
  import opened WorkflowState

  // ---- what the log says about one key

  predicate Names(e: Entry, key: Key) {
    match e
    case Settled(k) => k == key
    case Issued(Start(_, k)) => k == key
    case Issued(Cancel(_, k)) => k == key
    case Issued(_) => false
  }

  /** The part of the log that concerns one sequence number, in order. */
  function Entries(log: seq<Entry>, key: Key): seq<Entry> {
    if log == [] then []
    else
      var before, last := Entries(log[..|log| - 1], key), log[|log| - 1];
      if Names(last, key) then before + [last] else before
  }

  /** At most a start, then at most one cancel, then at most one settlement. */
  function Story(kind: Kind, key: Key, started: bool, cancelled: bool, settled: bool): seq<Entry> {
    var s := if started then [Issued(Start(kind, key))] else [];
    var c := if cancelled then s + [Issued(Cancel(kind, key))] else s;
    if settled then c + [Settled(key)] else c
  }

  lemma EntriesOfMore(log: seq<Entry>, e: Entry, key: Key)
    ensures Entries(log + [e], key) == if Names(e, key) then Entries(log, key) + [e] else Entries(log, key)
  {
    assert (log + [e])[..|log|] == log;
  }

  lemma StoryStarts(kind: Kind, key: Key)
    ensures Story(kind, key, false, false, false) == []
    ensures [] + [Issued(Start(kind, key))] == Story(kind, key, true, false, false)
  {
  }

  // ---- the invariant

  predicate Shape(o: Operation, ran: bool, completed: bool) {
    && (if o.mode.RejectOnly? then !o.registered && !o.started && o.settled == ran
        else o.registered == !o.settled && (o.started || completed))
    && (o.cancelled ==> o.started && ran && o.mode.Linked?)
    && (o.mode.Detached? ==> !ran)
    && (o.kind.Timer? && o.mode.Linked? && ran ==> !o.registered)
    && (o.mode.Linked? && ran && o.registered ==> o.cancelled || completed)
  }

  predicate OperationOk(s: State, key: Key)
    requires key in s.operations
  {
    var o := s.operations[key];
    && key.space == SpaceOf(o.kind) && key.seqNo < NextSeq(s, key.space)
    && o.scope < |s.scopes|
    && Shape(o, OnCancel(key) in s.ran, s.ledger.completed)
    && Entries(s.ledger.log, key) == Story(o.kind, key, o.started, o.cancelled, o.settled)
  }

  /** A number that names no operation is named nowhere else either. */
  predicate Unused(s: State, key: Key) {
    Entries(s.ledger.log, key) == [] && OnCancel(key) !in s.ran
  }

  predicate KeyOk(s: State, key: Key) { if key in s.operations then OperationOk(s, key) else Unused(s, key) }

  ghost predicate OperationsInv(s: State) { forall key: Key :: KeyOk(s, key) }

  /** What scheduling, cancelling and pushing never touch. */
  predicate SameRest(s: State, t: State) {
    && t.scopes == s.scopes && t.conditions == s.conditions && t.nextCondition == s.nextCondition && t.races == s.races
    && t.ran == s.ran && t.queries == s.queries && t.ledger.sent == s.ledger.sent
  }

  lemma PushFrame(s: State, command: Command, complete: bool)
    ensures var t := Push(s, command, complete);
            && t.operations == s.operations && SameRest(s, t)
            && t.ledger.completed == (s.ledger.completed || complete)
            && t.timers == s.timers && t.activities == s.activities && t.signals == s.signals
            && t.ledger.log == if s.ledger.completed && !command.RespondToQuery? then s.ledger.log
                               else s.ledger.log + [Issued(command)]
  {
  }

  lemma StartFrame(s: State, kind: Kind, scope: nat)
    requires scope < |s.scopes|
    ensures var t, space := AddOperation(s, kind, scope), SpaceOf(kind);
            var key, o := Key(space, NextSeq(s, space)), NewOperation(s, kind, scope);
            && t.operations == s.operations[key := o]
            && SameRest(s, t) && t.ledger.completed == s.ledger.completed
            && (forall x: Space :: NextSeq(t, x) == NextSeq(s, x) + if x == space then 1 else 0)
            && t.ledger.log == if o.started then s.ledger.log + [Issued(Start(kind, key))] else s.ledger.log
  {
    var space, o := SpaceOf(kind), NewOperation(s, kind, scope);
    var key := Key(space, NextSeq(s, space));
    PushFrame(TakeSeq(s, space).(operations := s.operations[key := o]), Start(kind, key), false);
    hide Push, ConsideredCancelled, SpaceOf;
  }

  lemma StartKeepsOther(s: State, kind: Kind, scope: nat, key: Key)
    requires KeyOk(s, key) && key != Key(SpaceOf(kind), NextSeq(s, SpaceOf(kind))) && scope < |s.scopes|
    ensures KeyOk(AddOperation(s, kind, scope), key)
  {
    StartFrame(s, kind, scope);
    EntriesOfMore(s.ledger.log, Issued(Start(kind, Key(SpaceOf(kind), NextSeq(s, SpaceOf(kind))))), key);
    hide Entries, Story, Shape, AddOperation, NextSeq, NewOperation;
  }

  lemma StartKeepsTaken(s: State, kind: Kind, scope: nat)
    requires KeyOk(s, Key(SpaceOf(kind), NextSeq(s, SpaceOf(kind)))) && scope < |s.scopes|
    ensures KeyOk(AddOperation(s, kind, scope), Key(SpaceOf(kind), NextSeq(s, SpaceOf(kind))))
  {
    var key := Key(SpaceOf(kind), NextSeq(s, SpaceOf(kind)));
    StartFrame(s, kind, scope);
    EntriesOfMore(s.ledger.log, Issued(Start(kind, key)), key);
    StoryStarts(kind, key);
    hide Entries, Story, AddOperation, NextSeq;
    assert key !in s.operations;
  }

  /** The operation after its cancellation handler. */
  function AfterHandler(o: Operation, completed: bool): Operation {
    if o.mode.RejectOnly? then o.(settled := true)
    else if !o.registered then o
    else if o.kind.Timer? then o.(cancelled := !completed, registered := false, settled := true)
    else o.(cancelled := !completed)
  }

  lemma HandlerFrame(s: State, key: Key)
    requires key in s.operations
    ensures var t := HandleCancel(s, key);
            && t.operations == s.operations[key := AfterHandler(s.operations[key], s.ledger.completed)]
            && SameRest(s, t) && t.ledger.completed == s.ledger.completed
            && t.timers == s.timers && t.activities == s.activities && t.signals == s.signals
  {
    PushFrame(s, Cancel(s.operations[key].kind, key), false);
    hide Push;
  }

  lemma HandlerLogs(s: State, handled: Key, key: Key)
    requires handled in s.operations
    ensures var o, before := s.operations[handled], Entries(s.ledger.log, key);
            var after := Entries(HandleCancel(s, handled).ledger.log, key);
            if key != handled || (!o.mode.RejectOnly? && !o.registered) then after == before
            else
              var c := if o.mode.RejectOnly? || s.ledger.completed then before
                       else before + [Issued(Cancel(o.kind, key))];
              after == if o.mode.RejectOnly? || o.kind.Timer? then c + [Settled(key)] else c
  {
    var cancel := Issued(Cancel(s.operations[handled].kind, handled));
    EntriesOfMore(s.ledger.log, Settled(handled), key);
    EntriesOfMore(s.ledger.log, cancel, key);
    EntriesOfMore(s.ledger.log + [cancel], Settled(handled), key);
    hide Entries;
    if s.ledger.completed {
    } else {
    }
  }

  lemma HandlerKeepsShape(o: Operation, completed: bool)
    requires Shape(o, false, completed) && !o.mode.Detached?
    ensures Shape(AfterHandler(o, completed), true, completed)
  {
  }

  lemma CancelKeepsOperations(s: State, handled: Key, key: Key)
    requires KeyOk(s, key) && KeyOk(s, handled) && Queued(s, OnCancel(handled))
    ensures KeyOk(Run(s, OnCancel(handled)), key)
  {
    var ran := s.(ran := s.ran + {OnCancel(handled)});
    HandlerFrame(ran, handled);
    HandlerLogs(ran, handled, key);
    HandlerKeepsShape(s.operations[handled], s.ledger.completed);
    hide Entries, HandleCancel;
    if key == handled {
      hide Queued;
      assert s.operations[key].cancelled ==> OnCancel(key) in s.ran;
    } else {
      hide Story, Shape, AfterHandler;
    }
  }

  lemma ResolveKeepsOperations(s: State, resolved: Key, key: Key)
    requires KeyOk(s, key) && KeyOk(s, resolved) && Enabled(s, Resolve(resolved))
    ensures KeyOk(Next(s, Resolve(resolved)), key)
  {
    EntriesOfMore(s.ledger.log, Settled(resolved), key);
    hide Entries;
  }

  /** Steps that log at most one entry without a key and leave the operations alone. */
  ghost predicate Aside(s: State, t: State) {
    && t.operations == s.operations && |t.scopes| >= |s.scopes|
    && (forall space :: NextSeq(t, space) >= NextSeq(s, space))
    && (s.ledger.completed ==> t.ledger.completed)
    && (forall key :: OnCancel(key) in t.ran <==> OnCancel(key) in s.ran)
    && (t.ledger.log == s.ledger.log ||
        exists c: Command :: (c.Terminal? || c.RespondToQuery?) && t.ledger.log == s.ledger.log + [Issued(c)])
  }

  lemma AsideKeepsOperations(s: State, t: State, key: Key)
    requires KeyOk(s, key) && Aside(s, t)
    ensures KeyOk(t, key)
  {
    if t.ledger.log != s.ledger.log {
      var c: Command :| (c.Terminal? || c.RespondToQuery?) && t.ledger.log == s.ledger.log + [Issued(c)];
      EntriesOfMore(s.ledger.log, Issued(c), key);
    }
    hide Entries, Story;
  }

  predicate TouchesOperations(e: Event) {
    || e.StartRace? || e.StartOperation? || e.Resolve?
    || (e.RunJob? && e.job.OnCancel?)
  }

  /** The steps that only answer, finish, count or conclude. */
  predicate CommandStep(e: Event) {
    e.RefuseOperation? || e.Finish? || e.Query? || e.CallFunction? || e.Answer? || e.AnswerThrows? || e.Conclude?
  }

  lemma CommandFrame(s: State, e: Event)
    requires Enabled(s, e) && CommandStep(e)
    ensures var t := Next(s, e);
            && t.operations == s.operations && t.scopes == s.scopes && t.conditions == s.conditions
            && t.nextCondition == s.nextCondition && t.races == s.races && t.ran == s.ran
            && (s.ledger.completed ==> t.ledger.completed)
            && t.timers >= s.timers && t.activities >= s.activities && t.signals >= s.signals
            && (!e.RefuseOperation? ==> t.timers == s.timers && t.activities == s.activities && t.signals == s.signals)
            && (if e.Finish? then t.ledger.log in {s.ledger.log, s.ledger.log + [Issued(Terminal(e.final))]}
                else if e.Answer? then t.ledger.log == s.ledger.log + [Issued(RespondToQuery(e.id))]
                else t.ledger.log == s.ledger.log)
  {
    hide Delivered, Called, Answered, AnswerThrew, AddOperation, AddRace, Run;
  }

  lemma CommandStepsAreAside(s: State, e: Event)
    requires Enabled(s, e) && CommandStep(e)
    ensures Aside(s, Next(s, e))
  {
    CommandFrame(s, e);
    hide Next;
  }

  lemma JobsAreAside(s: State, job: Job)
    requires Queued(s, job) && !job.OnCancel?
    ensures Aside(s, Run(s, job))
  {
  }

  lemma OtherStepsAreAside(s: State, e: Event)
    requires Enabled(s, e) && !TouchesOperations(e)
    ensures Aside(s, Next(s, e))
  {
    if CommandStep(e) {
      CommandStepsAreAside(s, e);
    } else if e.RunJob? {
      JobsAreAside(s, e.job);
    } else {
      hide Run, Push;
    }
  }

  lemma StepKeepsKey(s: State, e: Event, key: Key)
    requires OperationsInv(s) && Enabled(s, e) && !e.StartRace?
    ensures KeyOk(Next(s, e), key)
  {
    hide OperationOk, Unused;
    if e.StartOperation? {
      if key == Key(SpaceOf(e.kind), NextSeq(s, SpaceOf(e.kind))) {
        StartKeepsTaken(s, e.kind, e.scope);
      } else {
        StartKeepsOther(s, e.kind, e.scope, key);
      }
    } else if e.Resolve? {
      ResolveKeepsOperations(s, e.key, key);
    } else if e.RunJob? && e.job.OnCancel? {
      CancelKeepsOperations(s, e.job.key, key);
    } else {
      OtherStepsAreAside(s, e);
      hide Next;
      AsideKeepsOperations(s, Next(s, e), key);
    }
  }

  lemma RaceKeepsOperations(s: State, parent: nat, eager: bool)
    requires OperationsInv(s) && parent < |s.scopes|
    ensures OperationsInv(AddRace(s, parent, eager))
  {
    hide OperationOk, Unused;
    var t := AddScope(s, parent, true);
    assert OperationsInv(t) by {
      forall key: Key ensures KeyOk(t, key) {
        AsideKeepsOperations(s, t, key);
      }
    }
    var u := AddOperation(t, Timer, |s.scopes|);
    assert OperationsInv(u) by {
      forall key: Key ensures KeyOk(u, key) {
        StepKeepsKey(t, StartOperation(Timer, |s.scopes|), key);
      }
    }
    var v := AddRace(s, parent, eager);
    forall key: Key ensures KeyOk(v, key) {
      AsideKeepsOperations(u, v, key);
    }
  }

  lemma StepKeepsOperations(s: State, e: Event)
    requires OperationsInv(s) && Enabled(s, e)
    ensures OperationsInv(Next(s, e))
  {
    if e.StartRace? {
      RaceKeepsOperations(s, e.scope, e.eager);
    } else {
      forall key: Key ensures KeyOk(Next(s, e), key) {
        StepKeepsKey(s, e, key);
      }
    }
  }
}
