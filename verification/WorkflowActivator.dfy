/** The activator and its cancellation scopes as the objects they are. Every method is shown to be one step of the state
    machine, so that whatever holds of every run holds of the fields. */
module WorkflowActivator {
  import opened Wrappers
  import opened WorkflowQueries
  import opened WorkflowState
  import opened WorkflowOperations
  import opened WorkflowConditions
  import opened WorkflowRuns

  lemma {:induction false} RunOfMore(s: State, run: seq<Event>, e: Event)
    requires Legal(s, run) && Enabled(After(s, run), e)
    ensures Legal(s, run + [e]) && After(s, run + [e]) == Next(After(s, run), e)
    decreases |run|
  {
    hide Next, Enabled;
    if run == [] {
      assert [e][1..] == [];
      assert run + [e] == [e];
    } else {
      RunOfMore(Next(s, run[0]), run[1..], e);
      assert (run + [e])[1..] == run[1..] + [e];
    }
  }

  predicate Registered(s: State, k: Key) { k in s.operations && s.operations[k].registered }

  predicate Blocked(s: State, c: nat) { c in s.conditions && s.conditions[c].blocked }

  /** The run that led here. */
  ghost predicate IsRun(run: seq<Event>, s: State) { Legal(INIT, run) && s == After(INIT, run) }

  // ---- what each step changes, in the activator's terms

  predicate SameCounters(s: State, t: State) {
    t.timers == s.timers && t.activities == s.activities && t.signals == s.signals && t.nextCondition == s.nextCondition
  }

  predicate SameQueries(s: State, t: State) { t.queries == s.queries }

  ghost predicate SameConditions(s: State, t: State) { forall c: nat :: Blocked(t, c) <==> Blocked(s, c) }

  ghost predicate SameCompletions(s: State, t: State) { forall k: Key :: Registered(t, k) <==> Registered(s, k) }

  predicate SameCommands(s: State, t: State) {
    t.ledger.commands == s.ledger.commands && t.ledger.completed == s.ledger.completed
  }

  ghost predicate StartEffect(s: State, t: State, kind: Kind, scope: nat)
    requires scope < |s.scopes|
  {
    var space, refused := SpaceOf(kind), ConsideredCancelled(s.scopes[scope]);
    var key := Key(space, NextSeq(s, space));
    && t.scopes == s.scopes && SameQueries(s, t) && SameConditions(s, t)
    && t.nextCondition == s.nextCondition && t.ledger.completed == s.ledger.completed && !Registered(s, key)
    && t.ledger.commands == (if refused || s.ledger.completed then s.ledger.commands
                             else s.ledger.commands + [Start(kind, key)])
    && (forall k: Key :: Registered(t, k) <==> Registered(s, k) || (k == key && !refused))
    && t.timers == (if space.Timers? then s.timers + 1 else s.timers)
    && t.activities == (if space.Activities? then s.activities + 1 else s.activities)
    && t.signals == (if space.Signals? then s.signals + 1 else s.signals)
  }

  ghost predicate HandlerEffect(s: State, t: State, key: Key)
    requires key in s.operations
  {
    var o := s.operations[key];
    && t.scopes == s.scopes && SameQueries(s, t) && SameConditions(s, t) && SameCounters(s, t)
    && t.ledger.completed == s.ledger.completed
    && t.ledger.commands == (if !o.mode.RejectOnly? && o.registered && !s.ledger.completed
                             then s.ledger.commands + [Cancel(o.kind, key)] else s.ledger.commands)
    && (forall k: Key :: Registered(t, k) <==> Registered(s, k) && (k != key || !o.kind.Timer? || o.mode.RejectOnly?))
  }

  ghost predicate RejectEffect(s: State, t: State, scope: nat)
    requires scope < |s.scopes|
  {
    && SameQueries(s, t) && SameConditions(s, t) && SameCounters(s, t) && SameCompletions(s, t) && SameCommands(s, t)
    && |t.scopes| == |s.scopes|
    && (forall i :: 0 <= i < |s.scopes| && i != scope ==> t.scopes[i] == s.scopes[i])
    && t.scopes[scope].cancellable == s.scopes[scope].cancellable && t.scopes[scope].flagged && t.scopes[scope].rejected
  }

  ghost predicate ConditionEffect(s: State, t: State, scope: nat, eager: bool)
    requires scope < |s.scopes|
  {
    && t.scopes == s.scopes && SameQueries(s, t) && SameCompletions(s, t) && SameCommands(s, t)
    && t.timers == s.timers && t.activities == s.activities && t.signals == s.signals
    && (if ConsideredCancelled(s.scopes[scope]) then SameConditions(s, t) && t.nextCondition == s.nextCondition
        else
          && t.nextCondition == s.nextCondition + 1
          && (forall c: nat :: Blocked(t, c) <==> (if c == s.nextCondition then !eager else Blocked(s, c))))
  }

  ghost predicate RaceEffect(s: State, t: State, parent: nat, eager: bool)
    requires parent < |s.scopes|
  {
    var scope := Scope(Some(parent), true, s.scopes[parent].flagged, false, false);
    var cancelled, key := scope.flagged, Key(Timers, s.timers);
    && t.scopes == s.scopes + [scope] && SameQueries(s, t) && t.ledger.completed == s.ledger.completed
    && !Registered(s, key)
    && t.timers == s.timers + 1 && t.activities == s.activities && t.signals == s.signals
    && t.ledger.commands == (if cancelled || s.ledger.completed then s.ledger.commands
                             else s.ledger.commands + [Start(Timer, key)])
    && (forall k: Key :: Registered(t, k) <==> Registered(s, k) || (k == key && !cancelled))
    && (if cancelled then SameConditions(s, t) && t.nextCondition == s.nextCondition
        else
          && t.nextCondition == s.nextCondition + 1
          && (forall c: nat :: Blocked(t, c) <==> (if c == s.nextCondition then !eager else Blocked(s, c))))
  }

  /** What becomes of the commands and the queries in a command step. */
  predicate LedgerEffect(s: State, t: State, e: Event) {
    && t.ledger.completed == (s.ledger.completed || e.Finish?)
    && t.ledger.commands == (
         if e.Conclude? then []
         else if e.Answer? then s.ledger.commands + [RespondToQuery(e.id)]
         else if e.Finish? && !s.ledger.completed then s.ledger.commands + [Terminal(e.final)]
         else s.ledger.commands)
    && t.queries == (
         if e.Query? then Delivered(s.queries, e.delivery)
         else if e.CallFunction? then Called(s.queries)
         else if e.Answer? then Answered(s.queries, e.id)
         else if e.AnswerThrows? then AnswerThrew(s.queries, e.id)
         else s.queries)
  }

  /** A command step leaves everything else alone. */
  ghost predicate CommandEffect(s: State, t: State, e: Event) {
    && t.scopes == s.scopes && SameConditions(s, t) && SameCounters(s, t) && SameCompletions(s, t)
    && LedgerEffect(s, t, e)
  }

  lemma CommandHasLedgerEffect(s: State, e: Event)
    requires Enabled(s, e) && CommandStep(e)
    ensures LedgerEffect(s, Next(s, e), e)
  {
    hide Run, AddOperation, AddRace, AddScope, AddCondition, Reject, Settle, Delivered, Called, Answered, AnswerThrew;
  }

  lemma CommandHasEffect(s: State, e: Event)
    requires Enabled(s, e) && CommandStep(e) && !e.RefuseOperation?
    ensures CommandEffect(s, Next(s, e), e)
  {
    CommandFrame(s, e);
    CommandHasLedgerEffect(s, e);
    hide Next, LedgerEffect;
  }

  lemma NumberIsFresh(run: seq<Event>, space: Space)
    requires Legal(INIT, run)
    ensures var s := After(INIT, run); Key(space, NextSeq(s, space)) !in s.operations
  {
    var s := After(INIT, run);
    InitInv();
    RunKeepsInv(INIT, run);
    assert KeyOk(s, Key(space, NextSeq(s, space)));
  }

  lemma StartCommands(s: State, kind: Kind, scope: nat)
    requires scope < |s.scopes|
    ensures var o, key := NewOperation(s, kind, scope), Key(SpaceOf(kind), NextSeq(s, SpaceOf(kind)));
            AddOperation(s, kind, scope).ledger.commands ==
            if o.started then s.ledger.commands + [Start(kind, key)] else s.ledger.commands
  {
  }

  lemma StartHasEffect(s: State, kind: Kind, scope: nat)
    requires scope < |s.scopes| && Key(SpaceOf(kind), NextSeq(s, SpaceOf(kind))) !in s.operations
    ensures StartEffect(s, AddOperation(s, kind, scope), kind, scope)
  {
    StartFrame(s, kind, scope);
    StartCommands(s, kind, scope);
    var t := AddOperation(s, kind, scope);
    assert NextSeq(t, Timers) == t.timers && NextSeq(t, Activities) == t.activities && NextSeq(t, Signals) == t.signals;
    hide AddOperation;
  }

  lemma HandlerCommands(s: State, key: Key)
    requires key in s.operations
    ensures var o := s.operations[key];
            HandleCancel(s, key).ledger.commands ==
            if !o.mode.RejectOnly? && o.registered && !s.ledger.completed
            then s.ledger.commands + [Cancel(o.kind, key)] else s.ledger.commands
  {
  }

  lemma HandlerHasEffect(s: State, key: Key)
    requires Queued(s, OnCancel(key)) && (s.operations[key].mode.RejectOnly? ==> !s.operations[key].registered)
    ensures HandlerEffect(s, Run(s, OnCancel(key)), key)
  {
    var t := s.(ran := s.ran + {OnCancel(key)});
    HandlerFrame(t, key);
    HandlerCommands(t, key);
    hide HandleCancel, Queued;
  }

  lemma RejectHasEffect(s: State, scope: nat, called: bool)
    requires scope < |s.scopes|
    ensures RejectEffect(s, Reject(s, scope, called), scope)
  {
  }

  lemma ConditionHasEffect(s: State, scope: nat, eager: bool)
    requires scope < |s.scopes|
    ensures ConditionEffect(s, AddCondition(s, scope, eager), scope, eager)
  {
  }

  lemma RaceHasEffect(s: State, parent: nat, eager: bool)
    requires parent < |s.scopes| && Key(Timers, s.timers) !in s.operations
    ensures RaceEffect(s, AddRace(s, parent, eager), parent, eager)
  {
    var t := AddScope(s, parent, true);
    StartHasEffect(t, Timer, |s.scopes|);
    var u := AddOperation(t, Timer, |s.scopes|);
    ConditionHasEffect(u, |s.scopes|, eager);
    assert AddCondition(u, |s.scopes|, eager).scopes[|s.scopes|] == t.scopes[|s.scopes|];
    hide AddOperation, AddCondition, Registered, Blocked;
  }

  lemma ConditionIsFresh(run: seq<Event>)
    requires Legal(INIT, run)
    ensures !Blocked(After(INIT, run), After(INIT, run).nextCondition)
  {
    var s := After(INIT, run);
    InitInv();
    RunKeepsInv(INIT, run);
    forall c | c in s.conditions ensures c < s.nextCondition {
      assert ConditionOk(s, c);
    }
  }

  lemma RefusedIsUnregistered(run: seq<Event>, key: Key)
    requires Legal(INIT, run)
    ensures var s := After(INIT, run);
            key in s.operations && s.operations[key].mode.RejectOnly? ==> !s.operations[key].registered
  {
    InitInv();
    RunKeepsInv(INIT, run);
    assert KeyOk(After(INIT, run), key);
  }

  // ---- the objects

  /** The error of a completion that is not there. */
  datatype IllegalState = NoCompletion(taskSeq: nat)

  class CancellationScope {
    const parent: CancellationScope?
    const cancellable: bool
    var cancelRequested: bool
    /** Whether the promise of the same name is rejected. */
    var promiseRejected: bool

    constructor (parent: CancellationScope?, cancellable: bool)
      ensures this.parent == parent && this.cancellable == cancellable
      ensures cancelRequested == (parent != null && parent.cancelRequested) && !promiseRejected
    {
      this.parent, this.cancellable := parent, cancellable;
      promiseRejected := false;
      if parent == null {
        cancelRequested := false;
      } else {
        cancelRequested := parent.cancelRequested;
      }
    }

    predicate ConsideredCancelled()
      reads this
    {
      cancelRequested && cancellable
    }

    method Reject()
      modifies this
      ensures cancelRequested && promiseRejected
    {
      cancelRequested := true;
      promiseRejected := true;
    }

    /** What the state machine knows of the scope; whether `cancel` was called on it is kept there only. */
    ghost predicate Is(s: Scope)
      reads this
    {
      s.cancellable == cancellable && s.flagged == cancelRequested && s.rejected == promiseRejected
    }
  }

  class Activator {
    const rootScope: CancellationScope
    var commands: seq<Command>
    var completed: bool
    var completions: set<Key>
    var nextTimer: nat
    var nextActivity: nat
    var nextSignal: nat
    var nextCondition: nat
    var blockedConditions: set<nat>
    var workflowFunctionWasCalled: bool
    var bufferedQueries: seq<Delivery>
    /** Queries whose handler has been called and whose answer is still a queued callback. */
    var pendingQueries: multiset<nat>

    ghost var scopes: seq<CancellationScope>
    ghost var run: seq<Event>
    ghost var model: State

    /** The fields hold what the state machine holds. */
    ghost predicate Fields()
      reads this
    {
      && commands == model.ledger.commands && completed == model.ledger.completed
      && (forall k: Key :: k in completions <==> Registered(model, k))
      && nextTimer == model.timers && nextActivity == model.activities && nextSignal == model.signals
      && nextCondition == model.nextCondition
      && (forall c: nat :: c in blockedConditions <==> Blocked(model, c))
      && workflowFunctionWasCalled == model.queries.called && bufferedQueries == model.queries.buffered
      && pendingQueries == model.queries.pending
    }

    ghost predicate Tree()
      reads this, scopes
    {
      && |scopes| == |model.scopes| > 0 && scopes[0] == rootScope
      && (forall i, j :: 0 <= i < j < |scopes| ==> scopes[i] != scopes[j])
      && (forall i :: 0 <= i < |scopes| ==> scopes[i].Is(model.scopes[i]))
    }

    ghost predicate Valid()
      reads this, scopes
    {
      IsRun(run, model) && Fields() && Tree()
    }

    constructor ()
      ensures Valid() && run == [] && fresh(scopes)
    {
      rootScope := new CancellationScope(null, true);
      commands, completed, completions := [], false, {};
      nextTimer, nextActivity, nextSignal, nextCondition := 1, 1, 1, 1;
      blockedConditions, workflowFunctionWasCalled, bufferedQueries, pendingQueries := {}, false, [], multiset{};
      scopes, run, model := [rootScope], [], INIT;
    }

    ghost method Step(e: Event)
      requires IsRun(run, model) && Enabled(model, e)
      modifies `run, `model
      ensures IsRun(run, model) && run == old(run) + [e] && model == Next(old(model), e)
    {
      RunOfMore(INIT, run, e);
      run, model := run + [e], Next(model, e);
    }

    ghost method StepCommand(e: Event)
      requires IsRun(run, model) && Enabled(model, e) && CommandStep(e) && !e.RefuseOperation?
      modifies `run, `model
      ensures IsRun(run, model) && run == old(run) + [e] && CommandEffect(old(model), model, e)
    {
      CommandHasEffect(model, e);
      Step(e);
    }

    /** After completion only query responses are kept. */
    method PushCommand(command: Command, complete: bool)
      modifies `commands, `completed
      ensures commands == if old(completed) && !command.RespondToQuery? then old(commands)
                          else old(commands) + [command]
      ensures completed == (old(completed) || complete)
    {
      if completed && !command.RespondToQuery? {
        return;
      }
      commands := commands + [command];
      if complete {
        completed := true;
      }
    }

    method GetAndResetCommands() returns (result: seq<Command>)
      requires Valid()
      modifies this
      ensures Valid() && run == old(run) + [Conclude] && scopes == old(scopes)
      ensures result == old(commands) && commands == []
    {
      hide IsRun, Registered, Blocked;
      result := commands;
      commands := [];
      StepCommand(Conclude);
    }

    method TakeSeq(space: Space) returns (seqNo: nat)
      modifies `nextTimer, `nextActivity, `nextSignal
      ensures nextTimer == old(nextTimer) + if space.Timers? then 1 else 0
      ensures nextActivity == old(nextActivity) + if space.Activities? then 1 else 0
      ensures nextSignal == old(nextSignal) + if space.Signals? then 1 else 0
      ensures seqNo == match space
                       case Timers => old(nextTimer)
                       case Activities => old(nextActivity)
                       case Signals => old(nextSignal)
    {
      match space
      case Timers =>
        seqNo := nextTimer;
        nextTimer := nextTimer + 1;
      case Activities =>
        seqNo := nextActivity;
        nextActivity := nextActivity + 1;
      case Signals =>
        seqNo := nextSignal;
        nextSignal := nextSignal + 1;
    }

    // ---- scopes

    /** A scope opened under `parent`. */
    method NewScope(parent: CancellationScope, ghost i: nat, cancellable: bool) returns (scope: CancellationScope)
      requires Valid() && i < |scopes| && scopes[i] == parent
      modifies this
      ensures Valid() && run == old(run) + [Event.NewScope(i, cancellable)]
      ensures scopes == old(scopes) + [scope] && fresh(scope)
      ensures scope.parent == parent && scope.cancellable == cancellable
    {
      hide IsRun;
      assert parent.Is(model.scopes[i]);
      scope := new CancellationScope(parent, cancellable);
      scopes := scopes + [scope];
      StepNewScope(i, cancellable);
    }

    ghost method StepNewScope(i: nat, cancellable: bool)
      requires IsRun(run, model) && i < |model.scopes|
      modifies `run, `model
      ensures IsRun(run, model) && run == old(run) + [Event.NewScope(i, cancellable)]
      ensures model == AddScope(old(model), i, cancellable)
    {
      Step(Event.NewScope(i, cancellable));
    }

    /** `cancel` on a scope, from outside or from workflow code. */
    method Cancel(scope: CancellationScope, ghost i: nat)
      requires Valid() && i < |scopes| && scopes[i] == scope
      modifies this, scope
      ensures Valid() && run == old(run) + [CancelScope(i)] && scopes == old(scopes)
    {
      hide IsRun, Registered, Blocked;
      StepReject(CancelScope(i), i);
      scope.Reject();
    }

    /** The callback by which a parent's rejection reaches its child. */
    method ParentRejected(child: CancellationScope, ghost i: nat)
      requires Valid() && i < |scopes| && scopes[i] == child && Queued(model, Link(i))
      modifies this, child
      ensures Valid() && run == old(run) + [RunJob(Link(i))] && scopes == old(scopes)
    {
      hide IsRun, Registered, Blocked;
      StepReject(RunJob(Link(i)), i);
      child.Reject();
    }

    /** The `finally` block of a condition with a timeout. */
    method RaceEnded(scope: CancellationScope, ghost i: nat, ghost race: nat)
      requires Valid() && i < |scopes| && scopes[i] == scope
      requires Queued(model, Finally(race)) && model.races[race].scope == i
      modifies this, scope
      ensures Valid() && run == old(run) + [RunJob(Finally(race))] && scopes == old(scopes)
    {
      hide IsRun, Registered, Blocked;
      StepReject(RunJob(Finally(race)), i);
      scope.Reject();
    }

    ghost method StepReject(e: Event, i: nat)
      requires IsRun(run, model) && i < |model.scopes| && Enabled(model, e)
      requires e == CancelScope(i) || e == RunJob(Link(i)) ||
               (e.RunJob? && e.job.Finally? && model.races[e.job.race].scope == i)
      modifies `run, `model
      ensures IsRun(run, model) && run == old(run) + [e] && RejectEffect(old(model), model, i)
    {
      RejectHasEffect(if e.RunJob? then model.(ran := model.ran + {e.job}) else model, i, !e.RunJob? || e.job.Finally?);
      Step(e);
    }

    // ---- operations

    /** The four `NextHandler`s, with the taking of the number before them. */
    method Schedule(kind: Kind, scope: CancellationScope, ghost i: nat) returns (seqNo: nat)
      requires Valid() && i < |scopes| && scopes[i] == scope
      modifies this
      ensures Valid() && run == old(run) + [StartOperation(kind, i)] && scopes == old(scopes)
      ensures Key(SpaceOf(kind), seqNo) !in old(completions)
    {
      hide IsRun, Blocked;
      assert scope.Is(model.scopes[i]);
      StepStart(kind, i);
      seqNo := NextHandler(kind, scope);
      assert !Registered(old(model), Key(SpaceOf(kind), seqNo));
    }

    /** The part that touches the fields. */
    method NextHandler(kind: Kind, scope: CancellationScope) returns (seqNo: nat)
      modifies `nextTimer, `nextActivity, `nextSignal, `commands, `completed, `completions
      ensures completed == old(completed)
      ensures nextTimer == old(nextTimer) + if SpaceOf(kind).Timers? then 1 else 0
      ensures nextActivity == old(nextActivity) + if SpaceOf(kind).Activities? then 1 else 0
      ensures nextSignal == old(nextSignal) + if SpaceOf(kind).Signals? then 1 else 0
      ensures seqNo == match SpaceOf(kind)
                       case Timers => old(nextTimer)
                       case Activities => old(nextActivity)
                       case Signals => old(nextSignal)
      ensures var key, refused := Key(SpaceOf(kind), seqNo), scope.ConsideredCancelled();
              && completions == (if refused then old(completions) else old(completions) + {key})
              && commands == if refused || completed then old(commands) else old(commands) + [Start(kind, key)]
    {
      seqNo := TakeSeq(SpaceOf(kind));
      if !scope.ConsideredCancelled() {
        PushCommand(Start(kind, Key(SpaceOf(kind), seqNo)), false);
        completions := completions + {Key(SpaceOf(kind), seqNo)};
      }
    }

    ghost method StepStart(kind: Kind, i: nat)
      requires IsRun(run, model) && i < |model.scopes|
      modifies `run, `model
      ensures IsRun(run, model) && run == old(run) + [StartOperation(kind, i)]
      ensures StartEffect(old(model), model, kind, i)
    {
      NumberIsFresh(run, SpaceOf(kind));
      StartHasEffect(model, kind, i);
      Step(StartOperation(kind, i));
    }

    /** The handler that a call in a cancellable scope leaves on the scope's promise. A timer settles at once; anything
        else is only asked to cancel. */
    method CancelRequested(kind: Kind, key: Key)
      requires Valid() && Queued(model, OnCancel(key))
      requires model.operations[key].kind == kind && model.operations[key].mode.Linked?
      modifies this
      ensures Valid() && run == old(run) + [RunJob(OnCancel(key))] && scopes == old(scopes)
    {
      hide IsRun, Blocked;
      assert key in completions <==> Registered(model, key);
      StepHandler(key);
      if key !in completions {
        return;
      }
      if kind.Timer? {
        completions := completions - {key};
      }
      PushCommand(Command.Cancel(kind, key), false);
    }

    /** The handler that a call in a cancelled scope leaves: it rejects the caller's promise and touches nothing. */
    method Refused(key: Key)
      requires Valid() && Queued(model, OnCancel(key)) && model.operations[key].mode.RejectOnly?
      modifies this
      ensures Valid() && run == old(run) + [RunJob(OnCancel(key))] && scopes == old(scopes)
    {
      hide IsRun;
      StepHandler(key);
    }

    ghost method StepHandler(key: Key)
      requires IsRun(run, model) && Queued(model, OnCancel(key))
      modifies `run, `model
      ensures IsRun(run, model) && run == old(run) + [RunJob(OnCancel(key))]
      ensures HandlerEffect(old(model), model, key)
      ensures old(model).operations[key].mode.RejectOnly? ==> !Registered(old(model), key)
    {
      RefusedIsUnregistered(run, key);
      HandlerHasEffect(model, key);
      Step(RunJob(OnCancel(key)));
    }

    /** `maybeConsumeCompletion`: a timer that fires may be gone already. */
    method MaybeConsumeCompletion(key: Key) returns (found: bool)
      requires Valid() && !completed
      modifies this
      ensures Valid() && run == old(run) + [Resolve(key)] && scopes == old(scopes)
      ensures found == (key in old(completions)) && completions == old(completions) - {key}
    {
      hide IsRun, Blocked;
      StepResolve(key);
      found := key in completions;
      completions := completions - {key};
    }

    /** `consumeCompletion`, for any other operation: what is not registered is an error. */
    method ConsumeCompletion(key: Key) returns (consumed: Result<Key, IllegalState>)
      requires Valid() && !completed
      modifies this
      ensures Valid() && run == old(run) + [Resolve(key)] && scopes == old(scopes)
      ensures consumed == (if key in old(completions) then Ok(key) else Err(NoCompletion(key.seqNo)))
      ensures completions == old(completions) - {key}
    {
      var found := MaybeConsumeCompletion(key);
      consumed := if found then Ok(key) else Err(NoCompletion(key.seqNo));
    }

    ghost method StepResolve(key: Key)
      requires IsRun(run, model) && !model.ledger.completed
      modifies `run, `model
      ensures IsRun(run, model) && run == old(run) + [Resolve(key)]
      ensures model.scopes == old(model.scopes) && SameQueries(old(model), model) && SameConditions(old(model), model)
      ensures SameCounters(old(model), model) && SameCommands(old(model), model)
      ensures forall k: Key :: Registered(model, k) <==> Registered(old(model), k) && k != key
    {
      Step(Resolve(key));
    }

    // ---- conditions

    /** `conditionInner`, given what `fn` returns when it is first evaluated. */
    method Block(scope: CancellationScope, ghost i: nat, eager: bool)
      requires Valid() && i < |scopes| && scopes[i] == scope
      modifies this
      ensures Valid() && run == old(run) + [StartCondition(i, eager)] && scopes == old(scopes)
    {
      hide IsRun;
      assert scope.Is(model.scopes[i]);
      StepBlock(i, eager);
      ConditionInner(scope, eager);
    }

    method ConditionInner(scope: CancellationScope, eager: bool)
      modifies `nextCondition, `blockedConditions
      ensures if scope.ConsideredCancelled()
              then nextCondition == old(nextCondition) && blockedConditions == old(blockedConditions)
              else nextCondition == old(nextCondition) + 1 &&
                   blockedConditions == if eager then old(blockedConditions)
                                        else old(blockedConditions) + {old(nextCondition)}
    {
      if scope.ConsideredCancelled() {
        return;
      }
      var seqNo := nextCondition;
      nextCondition := nextCondition + 1;
      if eager {
        return;
      }
      blockedConditions := blockedConditions + {seqNo};
    }

    ghost method StepBlock(i: nat, eager: bool)
      requires IsRun(run, model) && i < |model.scopes|
      modifies `run, `model
      ensures IsRun(run, model) && run == old(run) + [StartCondition(i, eager)]
      ensures ConditionEffect(old(model), model, i, eager) && !Blocked(old(model), old(model.nextCondition))
    {
      ConditionIsFresh(run);
      ConditionHasEffect(model, i, eager);
      Step(StartCondition(i, eager));
    }

    /** A blocked condition's function turned out true. */
    method Unblock(c: nat)
      requires Valid() && c in blockedConditions
      modifies this
      ensures Valid() && run == old(run) + [Event.Unblock(c)] && scopes == old(scopes)
      ensures blockedConditions == old(blockedConditions) - {c}
    {
      hide IsRun;
      assert Blocked(model, c);
      StepSettle(Event.Unblock(c), c);
      blockedConditions := blockedConditions - {c};
    }

    method ConditionCancelled(c: nat)
      requires Valid() && Queued(model, OnCancelCondition(c))
      modifies this
      ensures Valid() && run == old(run) + [RunJob(OnCancelCondition(c))] && scopes == old(scopes)
      ensures blockedConditions == old(blockedConditions) - {c}
    {
      hide IsRun;
      StepSettle(RunJob(OnCancelCondition(c)), c);
      blockedConditions := blockedConditions - {c};
    }

    ghost method StepSettle(e: Event, c: nat)
      requires IsRun(run, model) && Enabled(model, e) && (e == Event.Unblock(c) || e == RunJob(OnCancelCondition(c)))
      modifies `run, `model
      ensures IsRun(run, model) && run == old(run) + [e]
      ensures model.scopes == old(model.scopes) && SameQueries(old(model), model) && SameCompletions(old(model), model)
      ensures SameCounters(old(model), model) && SameCommands(old(model), model)
      ensures forall d: nat :: Blocked(model, d) <==> Blocked(old(model), d) && d != c
    {
      Step(e);
    }

    /** `condition(fn, timeout)`: a cancellable scope with a timer and a condition in it. */
    method TimedCondition(parent: CancellationScope, ghost i: nat, eager: bool) returns (scope: CancellationScope)
      requires Valid() && i < |scopes| && scopes[i] == parent
      modifies this
      ensures Valid() && run == old(run) + [StartRace(i, eager)]
      ensures scopes == old(scopes) + [scope] && fresh(scope) && scope.parent == parent && scope.cancellable
    {
      scope := RaceFields(parent, i, eager);
      hide IsRun;
      assert scope.Is(model.scopes[|scopes|]);
      scopes := scopes + [scope];
    }

    method RaceFields(parent: CancellationScope, ghost i: nat, eager: bool) returns (scope: CancellationScope)
      requires Valid() && i < |scopes| && scopes[i] == parent
      modifies this
      ensures IsRun(run, model) && run == old(run) + [StartRace(i, eager)] && Fields() && scopes == old(scopes)
      ensures fresh(scope) && scope.parent == parent && scope.cancellable && !scope.promiseRejected
      ensures scope.cancelRequested == old(model).scopes[i].flagged
      ensures model.scopes == old(model).scopes + [Scope(Some(i), true, old(model).scopes[i].flagged, false, false)]
    {
      hide IsRun;
      assert parent.Is(model.scopes[i]);
      StepRace(i, eager);
      scope := RaceInScope(parent, eager);
    }

    /** The part that touches the fields. */
    method RaceInScope(parent: CancellationScope, eager: bool) returns (scope: CancellationScope)
      modifies `nextTimer, `nextActivity, `nextSignal, `commands, `completed, `completions
      modifies `nextCondition, `blockedConditions
      ensures fresh(scope) && scope.parent == parent && scope.cancellable && !scope.promiseRejected
      ensures scope.cancelRequested == parent.cancelRequested && completed == old(completed)
      ensures nextTimer == old(nextTimer) + 1 && nextActivity == old(nextActivity) && nextSignal == old(nextSignal)
      ensures var key := Key(Timers, old(nextTimer));
              && completions == (if parent.cancelRequested then old(completions) else old(completions) + {key})
              && commands == if parent.cancelRequested || completed then old(commands)
                             else old(commands) + [Start(Timer, key)]
      ensures if parent.cancelRequested
              then nextCondition == old(nextCondition) && blockedConditions == old(blockedConditions)
              else nextCondition == old(nextCondition) + 1 &&
                   blockedConditions ==
                   if eager then old(blockedConditions) else old(blockedConditions) + {old(nextCondition)}
    {
      scope := new CancellationScope(parent, true);
      var _ := NextHandler(Timer, scope);
      ConditionInner(scope, eager);
    }

    ghost method StepRace(i: nat, eager: bool)
      requires IsRun(run, model) && i < |model.scopes|
      modifies `run, `model
      ensures IsRun(run, model) && run == old(run) + [StartRace(i, eager)]
      ensures RaceEffect(old(model), model, i, eager) && !Blocked(old(model), old(model.nextCondition))
    {
      ConditionIsFresh(run);
      NumberIsFresh(run, Timers);
      RaceHasEffect(model, i, eager);
      Step(StartRace(i, eager));
    }

    // ---- completion and queries

    /** `completeWorkflow` and `handleWorkflowFailure`. */
    method Finish(final: Final)
      requires Valid()
      modifies this
      ensures Valid() && run == old(run) + [Event.Finish(final)] && scopes == old(scopes) && completed
    {
      hide IsRun, Registered, Blocked;
      PushCommand(Terminal(final), true);
      StepCommand(Event.Finish(final));
    }

    /** A delivered query waits for the call of the workflow function, and is then handed over at once. */
    method QueryWorkflow(delivery: Delivery) returns (threw: bool)
      requires Valid()
      modifies this
      ensures Valid() && run == old(run) + [Query(delivery)] && scopes == old(scopes)
      ensures threw == (workflowFunctionWasCalled && !delivery.converts)
    {
      hide IsRun, Registered, Blocked;
      StepCommand(Query(delivery));
      threw := BufferOrHandle(delivery);
    }

    method BufferOrHandle(delivery: Delivery) returns (threw: bool)
      modifies `bufferedQueries, `pendingQueries
      ensures threw == (workflowFunctionWasCalled && !delivery.converts)
      ensures bufferedQueries == if workflowFunctionWasCalled then old(bufferedQueries)
                                 else old(bufferedQueries) + [delivery]
      ensures pendingQueries == if !workflowFunctionWasCalled || threw then old(pendingQueries)
                                else old(pendingQueries) + multiset{delivery.id}
    {
      threw := false;
      if !workflowFunctionWasCalled {
        bufferedQueries := bufferedQueries + [delivery];
      } else {
        threw := Handle(delivery);
      }
    }

    /** Calling the handler of a query: a type or an id that is missing, or arguments that cannot be read, throw. */
    method Handle(delivery: Delivery) returns (threw: bool)
      modifies `pendingQueries
      ensures threw == !delivery.converts
      ensures pendingQueries == if threw then old(pendingQueries) else old(pendingQueries) + multiset{delivery.id}
    {
      if !delivery.converts {
        return true;
      }
      pendingQueries := pendingQueries + multiset{delivery.id};
      return false;
    }

    /** What follows the call of the workflow function: the buffer is emptied and its queries are handed over one by
        one, until one throws. */
    method StartWorkflow() returns (threw: bool)
      requires Valid() && !workflowFunctionWasCalled
      modifies this
      ensures Valid() && run == old(run) + [CallFunction] && scopes == old(scopes)
      ensures threw <==> exists k :: 0 <= k < |old(bufferedQueries)| && !old(bufferedQueries)[k].converts
      ensures bufferedQueries == []
    {
      hide IsRun, Registered, Blocked, Ids, Good;
      GoodIsFirst(bufferedQueries);
      StepCommand(CallFunction);
      threw := EmptyBuffer();
    }

    method EmptyBuffer() returns (threw: bool)
      modifies `workflowFunctionWasCalled, `bufferedQueries, `pendingQueries
      ensures workflowFunctionWasCalled && bufferedQueries == []
      ensures threw <==> Good(old(bufferedQueries)) < |old(bufferedQueries)|
      ensures var n := Good(old(bufferedQueries));
              pendingQueries == old(pendingQueries) + multiset(Ids(old(bufferedQueries)[..n]))
    {
      workflowFunctionWasCalled := true;
      var buffer := bufferedQueries;
      bufferedQueries := [];
      threw := HandOver(buffer);
    }

    method HandOver(buffer: seq<Delivery>) returns (threw: bool)
      modifies `pendingQueries
      ensures threw <==> Good(buffer) < |buffer|
      ensures pendingQueries == old(pendingQueries) + multiset(Ids(buffer[..Good(buffer)]))
    {
      hide Ids, Good;
      GoodIsFirst(buffer);
      NoIds(buffer);
      threw := false;
      var i := 0;
      while i < |buffer|
        invariant i <= Good(buffer)
        invariant pendingQueries == old(pendingQueries) + multiset(Ids(buffer[..i]))
      {
        threw := Handle(buffer[i]);
        if threw {
          break;
        }
        OneMoreId(buffer, i);
        i := i + 1;
      }
    }

    /** `completeQuery` with a result that the converter rejects: nothing is sent. */
    method AnswerThrows(id: nat)
      requires Valid() && id in pendingQueries
      modifies this
      ensures Valid() && run == old(run) + [Event.AnswerThrows(id)] && scopes == old(scopes)
      ensures commands == old(commands)
    {
      hide IsRun, Registered, Blocked;
      pendingQueries := pendingQueries - multiset{id};
      StepCommand(Event.AnswerThrows(id));
    }

    /** `completeQuery` or `failQuery`. */
    method RespondToQuery(id: nat)
      requires Valid() && id in pendingQueries
      modifies this
      ensures Valid() && run == old(run) + [Answer(id)] && scopes == old(scopes)
      ensures commands == old(commands) + [Command.RespondToQuery(id)]
    {
      hide IsRun, Registered, Blocked;
      StepCommand(Answer(id));
      SendAnswer(id);
    }

    method SendAnswer(id: nat)
      modifies `pendingQueries, `commands, `completed
      ensures pendingQueries == old(pendingQueries) - multiset{id} && completed == old(completed)
      ensures commands == old(commands) + [Command.RespondToQuery(id)]
    {
      pendingQueries := pendingQueries - multiset{id};
      PushCommand(Command.RespondToQuery(id), false);
    }
  }
}
