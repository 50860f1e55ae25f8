/** What holds of every run of the workflow runtime, in whatever order jobs, calls and callbacks come. */
module WorkflowRuns {
  import opened WorkflowQueries
  import opened WorkflowState
  import opened WorkflowOperations
  import opened WorkflowGrowth
  import opened WorkflowCancellation
  import opened WorkflowConditions
  import opened WorkflowCommands

  ghost predicate Inv(s: State) {
    && OperationsInv(s) && TreeOk(s.scopes, s.ran) && ConditionsInv(s) && ReactionsInv(s) && RacesInv(s)
    && CommandsInv(s)
  }

  lemma InitInv()
    ensures Inv(INIT)
  {
    assert ScopeOk(INIT.scopes, INIT.ran, 0);
    assert IssuedIn(INIT.ledger.log) == [] == INIT.ledger.sent + INIT.ledger.commands;
  }

  lemma StepKeepsInv(s: State, e: Event)
    requires Inv(s) && Enabled(s, e)
    ensures Inv(Next(s, e)) && Extends(s, Next(s, e))
  {
    assert s.nextCondition !in s.conditions by {
      forall c | c in s.conditions ensures c < s.nextCondition {
        assert ConditionOk(s, c);
      }
    }
    hide Next, Enabled, OperationsInv, TreeOk, ConditionsInv, ReactionsInv, RacesInv, CommandsInv, Extends;
    StepExtends(s, e);
    StepKeepsOperations(s, e);
    StepKeepsTree(s, e);
    StepKeepsConditions(s, e);
    StepKeepsReactions(s, e);
    StepKeepsRaces(s, e);
    StepKeepsCommands(s, e);
  }

  lemma {:induction false} RunKeepsInv(s: State, run: seq<Event>)
    requires Inv(s) && Legal(s, run)
    ensures Inv(After(s, run)) && Extends(s, After(s, run))
    decreases |run|
  {
    hide Inv, Enabled, Next, Extends;
    if run == [] {
      ExtendsItself(s);
    } else {
      StepKeepsInv(s, run[0]);
      RunKeepsInv(Next(s, run[0]), run[1..]);
      ExtendsTransitive(s, Next(s, run[0]), After(s, run));
    }
  }

  // ---- one sequence number

  function AsEntries(commands: seq<Command>): seq<Entry> {
    seq(|commands|, i requires 0 <= i < |commands| => Issued(commands[i]))
  }

  function Told(kind: Kind, key: Key, started: bool, cancelled: bool): seq<Command> {
    var s := if started then [Start(kind, key)] else [];
    if cancelled then s + [Cancel(kind, key)] else s
  }

  lemma IssuedInStart(kind: Kind, key: Key, started: bool)
    ensures IssuedIn(Story(kind, key, started, false, false)) == Told(kind, key, started, false)
    ensures Story(kind, key, started, false, false) == AsEntries(Told(kind, key, started, false))
  {
    IssuedInMore([], Issued(Start(kind, key)));
    assert IssuedIn([]) == [] && [] + [Issued(Start(kind, key))] == [Issued(Start(kind, key))];
    assert [] + [Start(kind, key)] == [Start(kind, key)];
  }

  lemma IssuedInStory(kind: Kind, key: Key, started: bool, cancelled: bool, settled: bool)
    ensures var story, told := Story(kind, key, started, cancelled, settled), Told(kind, key, started, cancelled);
            IssuedIn(story) == told && story == AsEntries(told) + if settled then [Settled(key)] else []
  {
    IssuedInStart(kind, key, started);
    IssuedInMore(Story(kind, key, started, false, false), Issued(Cancel(kind, key)));
    IssuedInMore(Story(kind, key, started, cancelled, false), Settled(key));
    hide IssuedIn;
  }

  lemma ToldShapes(kind: Kind, key: Key, started: bool, cancelled: bool)
    requires cancelled ==> started
    ensures Told(kind, key, started, cancelled) in {[], [Start(kind, key)], [Start(kind, key), Cancel(kind, key)]}
    ensures Told(kind, key, started, cancelled) == [] <==> !started
    ensures |Told(kind, key, started, cancelled)| == 2 <==> cancelled
  {
    assert [Start(kind, key)] + [Cancel(kind, key)] == [Start(kind, key), Cancel(kind, key)];
  }

  lemma NamingLogged(s: State, key: Key)
    requires Inv(s)
    ensures Naming(AllCommands(s), key) == IssuedIn(Entries(s.ledger.log, key))
  {
    NamingIsIssued(s.ledger.log, key);
  }

  /** Over a whole run the commands naming a number are none, a start, or a start and one cancel; what happens to it is
      told in that order, the settlement last and at most once. None means that its scope was cancelled already, or the
      workflow complete; a cancel, that its scope is cancellable. */
  lemma LifeOfAnOperation(run: seq<Event>, key: Key)
    requires Legal(INIT, run)
    ensures var s := After(INIT, run);
            var told := Naming(AllCommands(s), key);
            if key !in s.operations then told == [] && Entries(s.ledger.log, key) == []
            else
              var kind := s.operations[key].kind;
              && SpaceOf(kind) == key.space
              && told in {[], [Start(kind, key)], [Start(kind, key), Cancel(kind, key)]}
              && Entries(s.ledger.log, key) ==
                 AsEntries(told) + (if s.operations[key].settled then [Settled(key)] else [])
              && (s.operations[key].registered ==> !s.operations[key].settled)
              && (told == [] ==> s.operations[key].mode.RejectOnly? || s.ledger.completed)
              && (|told| == 2 ==>
                   s.operations[key].scope < |s.scopes| && s.scopes[s.operations[key].scope].cancellable)
  {
    InitInv();
    RunKeepsInv(INIT, run);
    var s := After(INIT, run);
    assert KeyOk(s, key) && (key in s.operations ==> OperationReacts(s, key));
    NamingLogged(s, key);
    hide Inv, Legal, After, Naming, IssuedIn, Entries, AsEntries, Story, Told;
    if key in s.operations {
      var o := s.operations[key];
      IssuedInStory(o.kind, key, o.started, o.cancelled, o.settled);
      ToldShapes(o.kind, key, o.started, o.cancelled);
    } else {
      IssuedInNothing();
    }
  }

  lemma IssuedInNothing()
    ensures IssuedIn([]) == []
  {
  }

  lemma OnlyHandlersCancel(s: State, e: Event, key: Key)
    requires Enabled(s, e) && key in s.operations && !s.operations[key].cancelled
    requires key in Next(s, e).operations && Next(s, e).operations[key].cancelled
    ensures e == RunJob(OnCancel(key)) && s.operations[key].registered
  {
    if !TouchesOperations(e) {
      OtherStepsAreAside(s, e);
      assert false;
    } else if e.RunJob? {
      HandlerFrame(s.(ran := s.ran + {e.job}), e.job.key);
      hide HandleCancel;
    } else if e.StartOperation? {
      StartFrame(s, e.kind, e.scope);
      hide AddOperation;
    } else if e.StartRace? {
      StartFrame(AddScope(s, e.scope, true), Timer, |s.scopes|);
      hide AddOperation;
    }
  }

  /** Which step can issue a command for an operation that was started before. */
  lemma SecondCommand(s: State, e: Event, key: Key)
    requires Inv(s) && Enabled(s, e) && Inv(Next(s, e))
    requires |Naming(AllCommands(Next(s, e)), key)| > |Naming(AllCommands(s), key)| > 0
    ensures && e == RunJob(OnCancel(key)) && key in s.operations
            && s.operations[key].registered && !s.operations[key].settled
            && Naming(AllCommands(Next(s, e)), key) ==
               Naming(AllCommands(s), key) + [Cancel(s.operations[key].kind, key)]
  {
    var t := Next(s, e);
    NamingLogged(s, key);
    NamingLogged(t, key);
    assert KeyOk(s, key) && KeyOk(t, key);
    assert key in s.operations && key in t.operations by {
      StepKeepsInv(s, e);
    }
    var o, p := s.operations[key], t.operations[key];
    assert OperationGrows(o, p) by {
      StepKeepsInv(s, e);
    }
    IssuedInStory(o.kind, key, o.started, o.cancelled, o.settled);
    IssuedInStory(p.kind, key, p.started, p.cancelled, p.settled);
    hide Inv, Next, KeyOk, Naming, IssuedIn, Entries, Story;
    assert p.cancelled && !o.cancelled;
    OnlyHandlersCancel(s, e, key);
  }

  /** A cancel command is issued only by the handler of an operation whose completion is registered. */
  lemma CancelOnlyWhileRegistered(run: seq<Event>, e: Event, key: Key)
    requires Legal(INIT, run) && Enabled(After(INIT, run), e)
    requires var s := After(INIT, run);
             |Naming(AllCommands(Next(s, e)), key)| > |Naming(AllCommands(s), key)| > 0
    ensures var s := After(INIT, run);
            && e == RunJob(OnCancel(key)) && key in s.operations
            && s.operations[key].registered && !s.operations[key].settled
            && Naming(AllCommands(Next(s, e)), key) ==
               Naming(AllCommands(s), key) + [Cancel(s.operations[key].kind, key)]
  {
    InitInv();
    RunKeepsInv(INIT, run);
    StepKeepsInv(After(INIT, run), e);
    hide Legal, After;
    SecondCommand(After(INIT, run), e, key);
  }

  // ---- scopes

  /** Once no callback is left, a scope is flagged exactly when `cancel` was called on it or above it. */
  lemma CancellationReaches(run: seq<Event>, i: nat)
    requires Legal(INIT, run) && Quiescent(After(INIT, run)) && i < |After(INIT, run).scopes|
    ensures var scopes := After(INIT, run).scopes;
            && (scopes[i].flagged <==> CalledAbove(scopes, i))
            && (scopes[i].rejected <==> CalledAbove(scopes, i))
            && (ConsideredCancelled(scopes[i]) <==> scopes[i].cancellable && CalledAbove(scopes, i))
  {
    InitInv();
    RunKeepsInv(INIT, run);
    CancelledExactlyBelowACall(After(INIT, run), i);
  }

  /** At no moment of a run is a scope flagged that no call asked for. */
  lemma CancellationNeverLeaks(run: seq<Event>, i: nat)
    requires Legal(INIT, run) && i < |After(INIT, run).scopes| && After(INIT, run).scopes[i].flagged
    ensures CalledAbove(After(INIT, run).scopes, i)
  {
    InitInv();
    RunKeepsInv(INIT, run);
    assert ScopeOk(After(INIT, run).scopes, After(INIT, run).ran, i);
  }

  /** A flag, once set, is never taken back. */
  lemma FlagsStay(run: seq<Event>, more: seq<Event>, i: nat)
    requires Legal(INIT, run) && Legal(After(INIT, run), more) && i < |After(INIT, run).scopes|
    requires After(INIT, run).scopes[i].flagged
    ensures i < |After(After(INIT, run), more).scopes| && After(After(INIT, run), more).scopes[i].flagged
  {
    InitInv();
    RunKeepsInv(INIT, run);
    RunKeepsInv(After(INIT, run), more);
    assert ScopeGrows(After(INIT, run).scopes[i], After(After(INIT, run), more).scopes[i]);
  }

  /** And what runs in a cancelled scope has heard of it: a timer is gone, an operation that was refused has failed, any
      other one has settled or has been asked to cancel, unless the workflow was complete by then. What runs in a scope
      that is not cancellable was never asked. */
  lemma CancellationReachesOperations(run: seq<Event>, key: Key)
    requires Legal(INIT, run) && Quiescent(After(INIT, run)) && key in After(INIT, run).operations
    ensures var s := After(INIT, run);
            var o := s.operations[key];
            && o.scope < |s.scopes|
            && (!s.scopes[o.scope].cancellable ==> !o.cancelled)
            && (o.cancelled ==> CalledAbove(s.scopes, o.scope))
            && (s.scopes[o.scope].cancellable && CalledAbove(s.scopes, o.scope) ==>
                 && (o.mode.RejectOnly? || o.kind.Timer? ==> o.settled && !o.registered)
                 && (o.settled || o.cancelled || s.ledger.completed))
  {
    InitInv();
    RunKeepsInv(INIT, run);
    OperationAtRest(After(INIT, run), key);
  }

  lemma OperationAtRest(s: State, key: Key)
    requires Inv(s) && Quiescent(s) && key in s.operations
    ensures var o := s.operations[key];
            && o.scope < |s.scopes|
            && (!s.scopes[o.scope].cancellable ==> !o.cancelled)
            && (o.cancelled ==> CalledAbove(s.scopes, o.scope))
            && (s.scopes[o.scope].cancellable && CalledAbove(s.scopes, o.scope) ==>
                 && (o.mode.RejectOnly? || o.kind.Timer? ==> o.settled && !o.registered)
                 && (o.settled || o.cancelled || s.ledger.completed))
  {
    assert KeyOk(s, key) && OperationReacts(s, key);
    CancelledExactlyBelowACall(s, s.operations[key].scope);
    assert !Queued(s, OnCancel(key));
  }

  /** A call in a cancelled scope never issues a command, whatever follows, and has failed once no callback is left. */
  lemma NothingStartsInACancelledScope(run: seq<Event>, kind: Kind, scope: nat, more: seq<Event>)
    requires Legal(INIT, run) && scope < |After(INIT, run).scopes|
    requires ConsideredCancelled(After(INIT, run).scopes[scope])
    requires Legal(Next(After(INIT, run), StartOperation(kind, scope)), more)
    ensures var s := After(INIT, run);
            var key := Key(SpaceOf(kind), NextSeq(s, SpaceOf(kind)));
            var t := After(Next(s, StartOperation(kind, scope)), more);
            && key in t.operations && Naming(AllCommands(t), key) == []
            && (Quiescent(t) ==> t.operations[key].settled)
  {
    InitInv();
    RunKeepsInv(INIT, run);
    hide Inv, Next, Naming, Quiescent;
    RefusedForGood(After(INIT, run), kind, scope, more);
  }

  /** The same holds at once in a cancellable scope opened under a flagged one, though no callback has reached it. */
  lemma NothingStartsBelowACancelledScope(run: seq<Event>, kind: Kind, parent: nat, more: seq<Event>)
    requires Legal(INIT, run) && parent < |After(INIT, run).scopes| && After(INIT, run).scopes[parent].flagged
    requires var s := After(INIT, run);
             Legal(Next(Next(s, NewScope(parent, true)), StartOperation(kind, |s.scopes|)), more)
    ensures var s := After(INIT, run);
            var t := After(Next(Next(s, NewScope(parent, true)), StartOperation(kind, |s.scopes|)), more);
            var key := Key(SpaceOf(kind), NextSeq(s, SpaceOf(kind)));
            && key in t.operations && Naming(AllCommands(t), key) == []
            && (Quiescent(t) ==> t.operations[key].settled)
  {
    InitInv();
    RunKeepsInv(INIT, run);
    hide Inv, Next, Naming, Quiescent;
    RefusedBelow(After(INIT, run), kind, parent, more);
  }

  lemma RefusedBelow(s: State, kind: Kind, parent: nat, more: seq<Event>)
    requires Inv(s) && parent < |s.scopes| && s.scopes[parent].flagged
    requires Legal(Next(Next(s, NewScope(parent, true)), StartOperation(kind, |s.scopes|)), more)
    ensures var t := After(Next(Next(s, NewScope(parent, true)), StartOperation(kind, |s.scopes|)), more);
            var key := Key(SpaceOf(kind), NextSeq(s, SpaceOf(kind)));
            && key in t.operations && Naming(AllCommands(t), key) == []
            && (Quiescent(t) ==> t.operations[key].settled)
  {
    var u := Next(s, NewScope(parent, true));
    StepKeepsInv(s, NewScope(parent, true));
    assert NextSeq(u, SpaceOf(kind)) == NextSeq(s, SpaceOf(kind)) && ConsideredCancelled(u.scopes[|s.scopes|]);
    hide Inv, Naming, Quiescent, Legal, After;
    RefusedForGood(u, kind, |s.scopes|, more);
  }

  lemma RefusedForGood(s: State, kind: Kind, scope: nat, more: seq<Event>)
    requires Inv(s) && scope < |s.scopes| && ConsideredCancelled(s.scopes[scope])
    requires Legal(Next(s, StartOperation(kind, scope)), more)
    ensures var key := Key(SpaceOf(kind), NextSeq(s, SpaceOf(kind)));
            var t := After(Next(s, StartOperation(kind, scope)), more);
            && key in t.operations && Naming(AllCommands(t), key) == []
            && (Quiescent(t) ==> t.operations[key].settled)
  {
    var key, u := Key(SpaceOf(kind), NextSeq(s, SpaceOf(kind))), Next(s, StartOperation(kind, scope));
    StartFrame(s, kind, scope);
    assert u.operations[key].mode.RejectOnly?;
    StepKeepsInv(s, StartOperation(kind, scope));
    hide Inv, Next, Naming, Quiescent, Legal, After, Extends;
    RunKeepsInv(u, more);
    RefusedAtRest(u, After(u, more), key);
  }

  lemma RefusedAtRest(u: State, t: State, key: Key)
    requires Inv(t) && Extends(u, t) && key in u.operations && u.operations[key].mode.RejectOnly?
    ensures key in t.operations && Naming(AllCommands(t), key) == []
    ensures Quiescent(t) ==> t.operations[key].settled
  {
    var o := t.operations[key];
    assert OperationGrows(u.operations[key], o);
    assert KeyOk(t, key);
    NamingLogged(t, key);
    IssuedInStory(o.kind, key, o.started, o.cancelled, o.settled);
    if Quiescent(t) {
      CancelledExactlyBelowACall(t, o.scope);
      assert !Queued(t, OnCancel(key));
    }
  }

  // ---- a condition with a timeout

  /** When no callback is left, a settled timed condition has left neither its timer nor its condition behind, and an
      unsettled one still has both, uncancelled: whatever the order of firing, unblocking, eager truth and outer
      cancel. */
  lemma TimedConditionCleansUp(run: seq<Event>, i: nat)
    requires Legal(INIT, run) && Quiescent(After(INIT, run)) && i < |After(INIT, run).races|
    ensures var s := After(INIT, run);
            var r := s.races[i];
            && r.timer in s.operations && (r.condition.Some? ==> r.condition.value in s.conditions)
            && r.scope < |s.scopes|
            && (RaceSettled(s, r) ==>
                 !s.operations[r.timer].registered && (r.condition.Some? ==> !s.conditions[r.condition.value].blocked))
            && (!RaceSettled(s, r) ==>
                 s.operations[r.timer].registered && r.condition.Some? && s.conditions[r.condition.value].blocked)
            && (RaceSettled(s, r) <==> CalledAbove(s.scopes, r.scope))
  {
    InitInv();
    RunKeepsInv(INIT, run);
    RaceAtRest(After(INIT, run), i);
  }

  lemma RaceAtRest(s: State, i: nat)
    requires Inv(s) && Quiescent(s) && i < |s.races|
    ensures var r := s.races[i];
            && r.timer in s.operations && (r.condition.Some? ==> r.condition.value in s.conditions)
            && r.scope < |s.scopes|
            && (RaceSettled(s, r) ==>
                 !s.operations[r.timer].registered && (r.condition.Some? ==> !s.conditions[r.condition.value].blocked))
            && (!RaceSettled(s, r) ==>
                 s.operations[r.timer].registered && r.condition.Some? && s.conditions[r.condition.value].blocked)
            && (RaceSettled(s, r) <==> CalledAbove(s.scopes, r.scope))
  {
    var r := s.races[i];
    assert RaceOk(s, i);
    CancelledExactlyBelowACall(s, r.scope);
    assert ScopeOk(s.scopes, s.ran, r.scope);
    assert KeyOk(s, r.timer);
    assert !Queued(s, Finally(i)) && !Queued(s, OnCancel(r.timer));
    if r.condition.Some? {
      assert ConditionOk(s, r.condition.value);
      assert !Queued(s, OnCancelCondition(r.condition.value));
    }
  }

  // ---- commands and queries

  /** Over all activations at most one terminal command is sent, and only query responses follow it. */
  lemma OneTerminalCommand(run: seq<Event>)
    requires Legal(INIT, run)
    ensures var all := AllCommands(After(INIT, run));
            forall i, j :: 0 <= i < j < |all| && all[i].Terminal? ==> all[j].RespondToQuery?
  {
    InitInv();
    RunKeepsInv(INIT, run);
  }

  /** How often a query was delivered, and how often its answer threw. */
  function Deliveries(run: seq<Event>, id: nat): nat {
    if run == [] then 0 else (if run[0].Query? && run[0].delivery.id == id then 1 else 0) + Deliveries(run[1..], id)
  }

  function Throws(run: seq<Event>, id: nat): nat {
    if run == [] then 0 else (if run[0] == AnswerThrows(id) then 1 else 0) + Throws(run[1..], id)
  }

  /** Every query of the run has a type, an id and arguments that can be read. */
  predicate AllConvert(run: seq<Event>) { forall e :: e in run && e.Query? ==> e.delivery.converts }

  lemma OtherStepsKeepQueries(s: State, e: Event)
    requires Enabled(s, e) && !(e.Query? || e.CallFunction? || e.Answer? || e.AnswerThrows?)
    ensures Next(s, e).queries == s.queries
  {
    hide AddOperation, HandleCancel;
    if e.StartOperation? {
      StartFrame(s, e.kind, e.scope);
    } else if e.StartRace? {
      StartFrame(AddScope(s, e.scope, true), Timer, |s.scopes|);
    } else if e.RunJob? && e.job.OnCancel? {
      HandlerFrame(s.(ran := s.ran + {e.job}), e.job.key);
    }
  }

  lemma StepKnows(s: State, e: Event, id: nat)
    requires Enabled(s, e)
    ensures Known(Next(s, e).queries, id) + (if e == AnswerThrows(id) then 1 else 0) ==
            Known(s.queries, id) + if e.Query? && e.delivery.id == id then 1 else 0
    ensures Drops(Next(s, e).queries) <==> Drops(s.queries) || (e.Query? && !e.delivery.converts)
  {
    hide AddOperation, AddRace, Run;
    if e.Query? {
      DeliveryIsKnown(s.queries, e.delivery, id);
      DeliveryDrops(s.queries, e.delivery);
      hide Delivered, Known, Drops;
    } else if e.CallFunction? {
      CallIsKnown(s.queries, id);
      CallDrops(s.queries);
      hide Called, Known, Drops;
    } else if e.Answer? || e.AnswerThrows? {
      AnswerIsKnown(s.queries, e.id, id);
      hide Known;
    } else {
      OtherStepsKeepQueries(s, e);
      hide Next, Known, Drops;
    }
  }

  lemma {:induction false} RunKnows(s: State, run: seq<Event>, id: nat)
    requires Legal(s, run)
    ensures Known(After(s, run).queries, id) + Throws(run, id) == Known(s.queries, id) + Deliveries(run, id)
    ensures Drops(After(s, run).queries) <==> Drops(s.queries) || !AllConvert(run)
    decreases |run|
  {
    if run != [] {
      hide Next, Enabled, Known, Drops;
      StepKnows(s, run[0], id);
      RunKnows(Next(s, run[0]), run[1..], id);
      assert run == [run[0]] + run[1..];
    }
  }

  /** A query is never answered more often than it was delivered; and once the workflow function has been called and
      no callback is left, each delivery, before the call or after completion, has been answered exactly once, but for
      those whose answer could not be converted and those that were dropped. None is dropped if and only if all of
      them can be handed over. */
  lemma QueriesAnsweredOnce(run: seq<Event>, id: nat)
    requires Legal(INIT, run)
    ensures var s := After(INIT, run);
            var answers, dropped := Responses(AllCommands(s), id), s.queries.dropped;
            && answers + Throws(run, id) + dropped[id] <= Deliveries(run, id)
            && (s.queries.called && Quiescent(s) ==> answers + Throws(run, id) + dropped[id] == Deliveries(run, id))
            && (s.queries.called ==> (dropped == multiset{} <==> AllConvert(run)))
  {
    InitInv();
    RunKeepsInv(INIT, run);
    RunKnows(INIT, run, id);
    assert Ids([]) == [];
    hide Legal, After, Ids, AllConvert;
  }

  /** So every delivery of a run at rest has been answered, or its answer threw, exactly when all queries of the run can
      be handed over: a single one that cannot is enough to lose an answer. */
  lemma EveryQueryAnsweredExactlyWhen(run: seq<Event>)
    requires Legal(INIT, run) && After(INIT, run).queries.called && Quiescent(After(INIT, run))
    ensures var s := After(INIT, run);
            (forall id: nat ::
               Responses(AllCommands(s), id) + Throws(run, id) == Deliveries(run, id)) <==>
            AllConvert(run)
  {
    var s := After(INIT, run);
    forall id: nat
      ensures Responses(AllCommands(s), id) + Throws(run, id) + s.queries.dropped[id] ==
              Deliveries(run, id)
    {
      QueriesAnsweredOnce(run, id);
    }
    QueriesAnsweredOnce(run, 0);
    hide Legal, After, Responses, Throws, Deliveries, AllConvert;
    if s.queries.dropped != multiset{} {
      var id :| id in s.queries.dropped;
      assert Responses(AllCommands(s), id) + Throws(run, id) < Deliveries(run, id);
    }
  }

  /** A query behind one that cannot be handed over is never answered, though it could be handed over itself. */
  lemma DroppedExample()
    ensures var run := [Query(Delivery(1, false)), Query(Delivery(2, true)), CallFunction];
            && Legal(INIT, run) && Quiescent(After(INIT, run)) && Deliveries(run, 2) == 1 && Throws(run, 2) == 0
            && Responses(AllCommands(After(INIT, run)), 2) == 0
  {
    var bad, good := Delivery(1, false), Delivery(2, true);
    var run, last := [Query(bad), Query(good), CallFunction], [CallFunction];
    assert run[1..] == [Query(good), CallFunction] && run[1..][1..] == last && last[1..] == [];
    AfterThree(run, INIT);
    var u := After(INIT, run);
    assert u.queries == Called(Delivered(Delivered(NO_QUERIES, bad), good));
    assert Ids([]) == [];
    assert u.ledger == INIT.ledger && u.ran == {} && |u.scopes| == 1;
  }

  lemma AfterThree(run: seq<Event>, s: State)
    requires |run| == 3 && Enabled(s, run[0]) && Enabled(Next(s, run[0]), run[1])
    requires Enabled(Next(Next(s, run[0]), run[1]), run[2])
    ensures Legal(s, run) && After(s, run) == Next(Next(Next(s, run[0]), run[1]), run[2])
  {
    hide Next, Enabled;
    var t := Next(s, run[0]);
    var u := Next(t, run[1]);
    assert run[1..][0] == run[1] && run[1..][1..] == run[2..] && run[2..][0] == run[2] && run[2..][1..] == [];
    assert Legal(u, run[2..]) && After(u, run[2..]) == Next(u, run[2]);
    assert Legal(t, run[1..]) && After(t, run[1..]) == Next(u, run[2]);
  }

  // ---- callbacks come to an end

  function Jobs(s: State): set<Job> {
    (set i | 0 <= i < |s.scopes| :: Link(i)) + (set k | k in s.operations :: OnCancel(k)) +
    (set c | c in s.conditions :: OnCancelCondition(c)) + (set r | 0 <= r < |s.races| :: Finally(r))
  }

  predicate Callback(e: Event) { e.RunJob? || e.Answer? || e.AnswerThrows? }

  /** How many callbacks can still run if nothing new is started. */
  function Left(s: State): nat { |Jobs(s) - s.ran| + |s.queries.pending| }

  lemma OneLess<T>(all: set<T>, done: set<T>, x: T)
    requires x in all && x !in done
    ensures |all - (done + {x})| < |all - done|
  {
    assert all - done == (all - (done + {x})) + {x};
  }

  lemma QueuedIsAJob(s: State, job: Job)
    requires Queued(s, job)
    ensures job in Jobs(s) - s.ran
  {
  }

  lemma OneFewerLeft(jobs: set<Job>, ran: set<Job>, pending: multiset<nat>, e: Event)
    requires if e.RunJob? then e.job in jobs - ran else Callback(e) && e.id in pending
    ensures if e.RunJob? then |jobs - (ran + {e.job})| < |jobs - ran| else |pending - multiset{e.id}| < |pending|
  {
    if e.RunJob? {
      OneLess(jobs, ran, e.job);
    } else {
      assert pending == (pending - multiset{e.id}) + multiset{e.id};
    }
  }

  lemma CallbackShrinks(s: State, e: Event)
    requires Enabled(s, e) && Callback(e)
    ensures Left(Next(s, e)) < Left(s)
  {
    CallbackFrame(s, e);
    if e.RunJob? {
      QueuedIsAJob(s, e.job);
    }
    hide Next, Jobs, Queued;
    OneFewerLeft(Jobs(s), s.ran, s.queries.pending, e);
  }

  lemma CallbackFrame(s: State, e: Event)
    requires Enabled(s, e) && Callback(e)
    ensures var t := Next(s, e);
            && Jobs(t) == Jobs(s)
            && (if e.RunJob? then t.ran == s.ran + {e.job} && t.queries.pending == s.queries.pending
                else t.ran == s.ran && t.queries.pending == s.queries.pending - multiset{e.id})
  {
    hide Pushed, AddOperation, AddRace;
    if e.RunJob? && e.job.OnCancel? {
      HandlerFrame(s.(ran := s.ran + {e.job}), e.job.key);
      hide HandleCancel;
    }
    SameJobs(s, Next(s, e));
  }

  lemma SameJobs(s: State, t: State)
    requires |t.scopes| == |s.scopes| && |t.races| == |s.races|
    requires t.operations.Keys == s.operations.Keys && t.conditions.Keys == s.conditions.Keys
    ensures Jobs(t) == Jobs(s)
  {
    assert forall k :: k in t.operations <==> k in s.operations.Keys;
    assert forall c :: c in t.conditions <==> c in s.conditions.Keys;
  }

  /** Cancellation and cleaning up come to an end: only so many callbacks can run before something new is started. */
  lemma {:induction false} CallbacksAreBounded(s: State, run: seq<Event>)
    requires Inv(s) && Legal(s, run) && forall e :: e in run ==> Callback(e)
    ensures |run| + Left(After(s, run)) <= Left(s)
    decreases |run|
  {
    if run != [] {
      CallbackShrinks(s, run[0]);
      StepKeepsInv(s, run[0]);
      hide Inv, Left, Next, Enabled;
      CallbacksAreBounded(Next(s, run[0]), run[1..]);
    }
  }

  /** And by running callbacks alone, in any order, rest is always reached. */
  lemma {:induction false} RestIsReached(s: State) returns (run: seq<Event>)
    requires Inv(s)
    ensures Legal(s, run) && (forall e :: e in run ==> Callback(e)) && Quiescent(After(s, run))
    decreases Left(s)
  {
    if Quiescent(s) {
      run := [];
    } else {
      var e: Event;
      if job :| Queued(s, job) {
        e := RunJob(job);
      } else {
        var id :| id in s.queries.pending;
        e := Answer(id);
      }
      CallbackShrinks(s, e);
      StepKeepsInv(s, e);
      hide Inv, Left, Next;
      var rest := RestIsReached(Next(s, e));
      run := [e] + rest;
      assert run[1..] == rest;
    }
  }
}
