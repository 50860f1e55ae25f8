/** What becomes of every call, told by the events of the run alone: exactly when an operation settles and is asked to
    cancel, when a condition is unblocked and a timed one settles, which numbers are taken and which terminal command is
    sent. */
module WorkflowOutcomes {
  import opened Wrappers
  import opened WorkflowQueries
  import opened WorkflowState
  import opened WorkflowOperations
  import opened WorkflowGrowth
  import opened WorkflowCancellation
  import opened WorkflowConditions
  import opened WorkflowCommands
  import opened WorkflowRuns

  // ---- runs in parts

  lemma {:induction false} RunInTwo(s: State, run: seq<Event>, more: seq<Event>)
    requires Legal(s, run + more)
    ensures Legal(s, run) && Legal(After(s, run), more) && After(s, run + more) == After(After(s, run), more)
    decreases |run|
  {
    hide Next, Enabled;
    if run == [] {
      assert run + more == more;
    } else {
      assert (run + more)[1..] == run[1..] + more;
      RunInTwo(Next(s, run[0]), run[1..], more);
    }
  }

  /** The first step, and the rest. */
  lemma FirstStep(s: State, run: seq<Event>)
    requires Legal(s, run) && run != []
    ensures Enabled(s, run[0]) && Legal(Next(s, run[0]), run[1..]) && After(s, run) == After(Next(s, run[0]), run[1..])
    ensures forall e :: e in run <==> e == run[0] || e in run[1..]
  {
    assert run == [run[0]] + run[1..];
  }

  /** A run up to some step, and from there on. */
  lemma RunAround(before: seq<Event>, e: Event, more: seq<Event>)
    requires Legal(INIT, before + ([e] + more))
    ensures Legal(INIT, before) && Inv(After(INIT, before)) && Enabled(After(INIT, before), e)
    ensures var s := Next(After(INIT, before), e);
            && Inv(s) && Extends(After(INIT, before), s) && Legal(s, more) && Inv(After(s, more))
            && Extends(s, After(s, more)) && After(INIT, before + ([e] + more)) == After(s, more)
  {
    assert ([e] + more)[1..] == more;
    RunInTwo(INIT, before, [e] + more);
    var s := After(INIT, before);
    assert Legal(s, [e] + more) && After(s, [e] + more) == After(Next(s, e), more);
    hide Inv, Next, Enabled, Extends, Legal, After;
    InitInv();
    RunKeepsInv(INIT, before);
    StepKeepsInv(s, e);
    RunKeepsInv(Next(s, e), more);
  }

  /** The callbacks that have run are those of the run. */
  lemma {:induction false} RanInRun(s: State, run: seq<Event>, job: Job)
    requires Legal(s, run)
    ensures job in After(s, run).ran <==> job in s.ran || RunJob(job) in run
    decreases |run|
  {
    if run != [] {
      RanOfStep(s, run[0]);
      hide Next, Enabled;
      RanInRun(Next(s, run[0]), run[1..], job);
      assert run == [run[0]] + run[1..];
    }
  }

  // ---- operations

  /** The number that a call would take names no operation, nor its condition's number a condition. */
  predicate Fresh(s: State) {
    && Key(Timers, s.timers) !in s.operations && Key(Activities, s.activities) !in s.operations
    && Key(Signals, s.signals) !in s.operations && s.nextCondition !in s.conditions
  }

  lemma InvIsFresh(s: State)
    requires Inv(s)
    ensures Fresh(s)
  {
    NewKeyIsFresh(s, Timer);
    NewKeyIsFresh(s, RemoteActivity);
    NewKeyIsFresh(s, ExternalSignal);
    ConditionIsNew(s);
    hide Inv;
  }

  /** One step on one operation. */
  lemma OperationAfter(s: State, e: Event, key: Key)
    requires Enabled(s, e) && key in s.operations && Fresh(s)
    ensures key in Next(s, e).operations
    ensures var o := s.operations[key];
            Next(s, e).operations[key] ==
            if e == Resolve(key) && o.registered then o.(registered := false, settled := true)
            else if e == RunJob(OnCancel(key)) then AfterHandler(o, s.ledger.completed)
            else o
  {
    if !TouchesOperations(e) {
      OtherStepsAreAside(s, e);
      hide Next;
    } else if e.RunJob? {
      HandlerFrame(s.(ran := s.ran + {e.job}), e.job.key);
      hide HandleCancel, AfterHandler;
    } else if e.StartOperation? {
      StartFrame(s, e.kind, e.scope);
      hide AddOperation;
    } else if e.StartRace? {
      StartFrame(AddScope(s, e.scope, true), Timer, |s.scopes|);
      hide AddOperation;
    }
  }

  lemma StepSettles(s: State, e: Event, key: Key)
    requires Inv(s) && Enabled(s, e) && key in s.operations
    ensures key in Next(s, e).operations
    ensures var o, p := s.operations[key], Next(s, e).operations[key];
            && p.mode == o.mode && p.kind == o.kind
            && (!o.mode.RejectOnly? ==>
                 (p.settled <==>
                  o.settled || e == Resolve(key) || (e == RunJob(OnCancel(key)) && o.kind.Timer?)))
            && (p.settled && !o.settled ==> e == Resolve(key) || e == RunJob(OnCancel(key)))
            && (!o.mode.RejectOnly? && e == RunJob(OnCancel(key)) && !o.settled && !s.ledger.completed ==> p.cancelled)
            && (o.cancelled ==> p.cancelled)
  {
    InvIsFresh(s);
    assert KeyOk(s, key);
    hide Inv, Next, Enabled, Entries, Story, Fresh;
    OperationAfter(s, e, key);
  }

  lemma NewKeyIsFresh(s: State, kind: Kind)
    requires Inv(s)
    ensures Key(SpaceOf(kind), NextSeq(s, SpaceOf(kind))) !in s.operations
  {
    assert KeyOk(s, Key(SpaceOf(kind), NextSeq(s, SpaceOf(kind))));
  }

  lemma {:induction false} RunSettles(s: State, run: seq<Event>, key: Key)
    requires Inv(s) && Legal(s, run) && key in s.operations && !s.operations[key].mode.RejectOnly?
    ensures key in After(s, run).operations
    ensures After(s, run).operations[key].settled <==>
            || s.operations[key].settled || Resolve(key) in run
            || (RunJob(OnCancel(key)) in run && s.operations[key].kind.Timer?)
    decreases |run|
  {
    if run != [] {
      FirstStep(s, run);
      hide Inv, Next, Enabled, Extends, Legal, After;
      StepSettles(s, run[0], key);
      StepKeepsInv(s, run[0]);
      RunSettles(Next(s, run[0]), run[1..], key);
    }
  }

  lemma {:induction false} LoggedAmongEntries(log: seq<Entry>, e: Entry, key: Key)
    requires Names(e, key)
    ensures e in log <==> e in Entries(log, key)
  {
    if log != [] {
      LoggedAmongEntries(log[..|log| - 1], e, key);
      assert log == log[..|log| - 1] + [log[|log| - 1]];
    }
  }

  /** What the log and the commands of a state say of an operation. */
  lemma ToldOf(s: State, key: Key)
    requires Inv(s) && key in s.operations
    ensures var o := s.operations[key];
            && Naming(AllCommands(s), key) == Told(o.kind, key, o.started, o.cancelled)
            && (Settled(key) in s.ledger.log <==> o.settled)
  {
    var o := s.operations[key];
    assert KeyOk(s, key);
    NamingLogged(s, key);
    LoggedAmongEntries(s.ledger.log, Settled(key), key);
    IssuedInStory(o.kind, key, o.started, o.cancelled, o.settled);
    hide Inv, Entries, Naming, IssuedIn, Story, AllCommands;
  }

  /** At rest the handler of an operation has run exactly if its scope is cancellable and was cancelled. */
  lemma HandlerRan(s: State, key: Key)
    requires Inv(s) && Quiescent(s) && key in s.operations
    ensures s.operations[key].scope < |s.scopes|
    ensures OnCancel(key) in s.ran <==>
            s.scopes[s.operations[key].scope].cancellable && CalledAbove(s.scopes, s.operations[key].scope)
  {
    assert KeyOk(s, key) && OperationReacts(s, key);
    CancelledExactlyBelowACall(s, s.operations[key].scope);
    assert !Queued(s, OnCancel(key));
  }

  /** Only a terminal command completes a workflow. */
  lemma StepCompletes(s: State, e: Event)
    requires Enabled(s, e)
    ensures Next(s, e).ledger.completed == (s.ledger.completed || e.Finish?)
  {
    hide AddOperation, HandleCancel;
    if e.StartOperation? {
      StartFrame(s, e.kind, e.scope);
    } else if e.StartRace? {
      StartFrame(AddScope(s, e.scope, true), Timer, |s.scopes|);
    } else if e.RunJob? && e.job.OnCancel? {
      HandlerFrame(s.(ran := s.ran + {e.job}), e.job.key);
    }
  }

  lemma {:induction false} RunCompletes(s: State, run: seq<Event>)
    requires Legal(s, run)
    ensures s.ledger.completed ==> After(s, run).ledger.completed
    decreases |run|
  {
    if run != [] {
      StepCompletes(s, run[0]);
      hide Next, Enabled;
      RunCompletes(Next(s, run[0]), run[1..]);
    }
  }

  /** An operation that is not resolved before its handler runs is asked to cancel, unless the workflow is complete. */
  lemma {:induction false} RunAsks(s: State, run: seq<Event>, key: Key)
    requires Inv(s) && Legal(s, run) && key in s.operations && !s.operations[key].mode.RejectOnly?
    requires !s.operations[key].settled && Resolve(key) !in run && !After(s, run).ledger.completed
    requires RunJob(OnCancel(key)) in run
    ensures key in After(s, run).operations && After(s, run).operations[key].cancelled
    decreases |run|
  {
    FirstStep(s, run);
    hide Inv, Next, Enabled, Legal, After;
    var n, rest := Next(s, run[0]), run[1..];
    StepKeepsInv(s, run[0]);
    RunCompletes(s, run);
    StepSettles(s, run[0], key);
    if run[0] == RunJob(OnCancel(key)) {
      RunKeepsInv(n, rest);
      assert OperationGrows(n.operations[key], After(n, rest).operations[key]);
    } else {
      hide Extends;
      RunAsks(n, rest, key);
    }
  }

  lemma CallMade(s: State, kind: Kind, scope: nat)
    requires scope < |s.scopes|
    ensures var key, t := Key(SpaceOf(kind), NextSeq(s, SpaceOf(kind))), Next(s, StartOperation(kind, scope));
            && key in t.operations
            && var o, refused := t.operations[key], ConsideredCancelled(s.scopes[scope]);
            && o.kind == kind && o.scope == scope && o.mode.RejectOnly? == refused
            && o.started == (!refused && !s.ledger.completed) && !o.settled
  {
    StartFrame(s, kind, scope);
    hide AddOperation;
  }

  lemma OperationRests(s: State, key: Key)
    requires Inv(s) && Quiescent(s) && key in s.operations
    ensures var o := s.operations[key];
            && o.scope < |s.scopes|
            && var cancelled := s.scopes[o.scope].cancellable && CalledAbove(s.scopes, o.scope);
            && (OnCancel(key) in s.ran <==> cancelled)
            && (o.mode.RejectOnly? ==> o.settled && !o.started)
            && (o.cancelled ==> cancelled && o.started)
  {
    HandlerRan(s, key);
    assert KeyOk(s, key) && OperationReacts(s, key);
    assert ScopeOk(s.scopes, s.ran, s.operations[key].scope);
  }

  /** A call, and what is known of it at rest. */
  lemma OperationOutcome(s: State, kind: Kind, scope: nat, more: seq<Event>)
    requires Inv(s) && scope < |s.scopes| && Inv(Next(s, StartOperation(kind, scope)))
    requires var u := Next(s, StartOperation(kind, scope));
             Legal(u, more) && Inv(After(u, more)) && Extends(u, After(u, more)) && Quiescent(After(u, more))
    requires Key(SpaceOf(kind), NextSeq(s, SpaceOf(kind))) !in s.operations
    ensures var key := Key(SpaceOf(kind), NextSeq(s, SpaceOf(kind)));
            var refused := ConsideredCancelled(s.scopes[scope]);
            var t := After(Next(s, StartOperation(kind, scope)), more);
            && scope < |t.scopes| && key in t.operations
            && var o, cancelled := t.operations[key], t.scopes[scope].cancellable && CalledAbove(t.scopes, scope);
            && o.kind == kind && o.scope == scope
            && o.started == (!refused && !s.ledger.completed) && (o.cancelled ==> o.started)
            && (refused ==> o.settled)
            && (!refused ==> (o.settled <==> Resolve(key) in more || (kind.Timer? && cancelled)))
            && (o.cancelled ==> cancelled)
            && (!refused && cancelled && Resolve(key) !in more && !t.ledger.completed ==> o.cancelled)
  {
    var key, u := Key(SpaceOf(kind), NextSeq(s, SpaceOf(kind))), Next(s, StartOperation(kind, scope));
    var t := After(u, more);
    CallMade(s, kind, scope);
    assert OperationGrows(u.operations[key], t.operations[key]);
    OperationRests(t, key);
    RanInRun(u, more, OnCancel(key));
    assert OnCancel(key) !in u.ran by {
      assert KeyOk(s, key);
      RanOfStep(s, StartOperation(kind, scope));
    }
    hide Inv, Next, Legal, After, Extends, Quiescent, CalledAbove, NextSeq, SpaceOf;
    if !ConsideredCancelled(s.scopes[scope]) {
      RunSettles(u, more, key);
      if RunJob(OnCancel(key)) in more && Resolve(key) !in more && !t.ledger.completed {
        RunAsks(u, more, key);
      }
    }
  }

  /** The life of a call, by what can be observed of the run. Refused by a cancelled scope, it issues nothing and
      fails. Any other call issues its start unless the workflow is complete; at rest it has settled exactly if it was
      resolved or is a timer whose scope, being cancellable, was cancelled; only there it is asked to cancel, and
      there it is unless it was resolved or the workflow completed. */
  lemma CancellationReachesCalls(before: seq<Event>, kind: Kind, scope: nat, more: seq<Event>)
    requires Legal(INIT, before + ([StartOperation(kind, scope)] + more))
    requires Quiescent(After(INIT, before + ([StartOperation(kind, scope)] + more)))
    ensures Legal(INIT, before) && scope < |After(INIT, before).scopes|
    ensures var s, t := After(INIT, before), After(INIT, before + ([StartOperation(kind, scope)] + more));
            var key := Key(SpaceOf(kind), NextSeq(s, SpaceOf(kind)));
            var told, settled := Naming(AllCommands(t), key), Settled(key) in t.ledger.log;
            && scope < |t.scopes|
            && var cancelled := t.scopes[scope].cancellable && CalledAbove(t.scopes, scope);
            && (ConsideredCancelled(s.scopes[scope]) ==> told == [] && settled)
            && (!ConsideredCancelled(s.scopes[scope]) ==>
                 && (told == [] <==> s.ledger.completed)
                 && (settled <==> Resolve(key) in more || (kind.Timer? && cancelled))
                 && (Cancel(kind, key) in told ==> cancelled)
                 && (cancelled && Resolve(key) !in more && !t.ledger.completed ==> Cancel(kind, key) in told))
  {
    RunAround(before, StartOperation(kind, scope), more);
    var s, t := After(INIT, before), After(INIT, before + ([StartOperation(kind, scope)] + more));
    var key := Key(SpaceOf(kind), NextSeq(s, SpaceOf(kind)));
    NewKeyIsFresh(s, kind);
    hide Inv, Next, Legal, After, Quiescent, Naming, AllCommands, NextSeq;
    OperationOutcome(s, kind, scope, more);
    ToldOf(t, key);
    var o := t.operations[key];
    ToldIn(kind, key, o.started, o.cancelled);
  }

  lemma ToldIn(kind: Kind, key: Key, started: bool, cancelled: bool)
    ensures Told(kind, key, started, cancelled) == [] <==> !started && !cancelled
    ensures Cancel(kind, key) in Told(kind, key, started, cancelled) <==> cancelled
  {
  }

  // ---- conditions

  /** One step on one condition. */
  lemma ConditionAfter(s: State, e: Event, c: nat)
    requires Enabled(s, e) && c in s.conditions && Fresh(s)
    ensures c in Next(s, e).conditions
    ensures Next(s, e).conditions[c] ==
            if e == Unblock(c) || e == RunJob(OnCancelCondition(c))
            then s.conditions[c].(blocked := false, settled := true) else s.conditions[c]
  {
    if CommandStep(e) {
      CommandFrame(s, e);
      hide Next;
    } else if e.RunJob? && e.job.OnCancel? {
      HandlerFrame(s.(ran := s.ran + {e.job}), e.job.key);
      hide HandleCancel;
    } else if e.StartOperation? {
      StartFrame(s, e.kind, e.scope);
      hide AddOperation;
    } else if e.StartRace? {
      StartFrame(AddScope(s, e.scope, true), Timer, |s.scopes|);
      hide AddOperation;
    } else {
      hide AddOperation, AddRace, Push;
    }
  }

  lemma StepBlocks(s: State, e: Event, c: nat)
    requires Inv(s) && Enabled(s, e) && c in s.conditions
    ensures c in Next(s, e).conditions
    ensures Next(s, e).conditions[c].settled <==>
            s.conditions[c].settled || e == Unblock(c) || e == RunJob(OnCancelCondition(c))
  {
    hide Inv, Next, Enabled, Fresh;
    InvIsFresh(s);
    ConditionAfter(s, e, c);
  }

  lemma {:induction false} RunBlocks(s: State, run: seq<Event>, c: nat)
    requires Inv(s) && Legal(s, run) && c in s.conditions
    ensures c in After(s, run).conditions
    ensures After(s, run).conditions[c].settled <==>
            s.conditions[c].settled || Unblock(c) in run || RunJob(OnCancelCondition(c)) in run
    decreases |run|
  {
    if run != [] {
      FirstStep(s, run);
      hide Inv, Next, Enabled, Extends, Legal, After;
      StepBlocks(s, run[0], c);
      StepKeepsInv(s, run[0]);
      RunBlocks(Next(s, run[0]), run[1..], c);
    }
  }

  lemma ConditionRests(s: State, c: nat)
    requires Inv(s) && Quiescent(s) && c in s.conditions
    ensures var o := s.conditions[c];
            && o.scope < |s.scopes| && o.blocked == !o.settled
            && (OnCancelCondition(c) in s.ran <==>
                s.scopes[o.scope].cancellable && CalledAbove(s.scopes, o.scope))
  {
    assert ConditionOk(s, c) && ConditionReacts(s, c);
    CancelledExactlyBelowACall(s, s.conditions[c].scope);
    assert !Queued(s, OnCancelCondition(c));
  }

  lemma ConditionIsNew(s: State)
    requires Inv(s)
    ensures s.nextCondition !in s.conditions && OnCancelCondition(s.nextCondition) !in s.ran
  {
    forall c | c in s.conditions ensures c < s.nextCondition {
      assert ConditionOk(s, c);
    }
  }

  /** A condition in a cancelled scope is never blocked. Any other one is blocked, at rest, exactly until it was true,
      at the first evaluation or later, or its scope, being cancellable, was cancelled. */
  lemma BlockedExactlyWhen(before: seq<Event>, scope: nat, eager: bool, more: seq<Event>)
    requires Legal(INIT, before + ([StartCondition(scope, eager)] + more))
    requires Quiescent(After(INIT, before + ([StartCondition(scope, eager)] + more)))
    ensures Legal(INIT, before) && scope < |After(INIT, before).scopes|
    ensures var s, t := After(INIT, before), After(INIT, before + ([StartCondition(scope, eager)] + more));
            var c := s.nextCondition;
            if ConsideredCancelled(s.scopes[scope]) then Next(s, StartCondition(scope, eager)) == s
            else
              && scope < |t.scopes| && c in t.conditions
              && (t.conditions[c].blocked <==>
                  && !eager && Unblock(c) !in more
                  && !(t.scopes[scope].cancellable && CalledAbove(t.scopes, scope)))
  {
    RunAround(before, StartCondition(scope, eager), more);
    var s := After(INIT, before);
    hide Inv, Next, Legal, After, Extends, Quiescent, CalledAbove, ConsideredCancelled;
    ConditionMade(s, scope, eager);
    if !ConsideredCancelled(s.scopes[scope]) {
      ConditionOutcome(Next(s, StartCondition(scope, eager)), s.nextCondition, more);
    }
  }

  lemma ConditionMade(s: State, scope: nat, eager: bool)
    requires Inv(s) && scope < |s.scopes|
    ensures var u, c := Next(s, StartCondition(scope, eager)), s.nextCondition;
            if ConsideredCancelled(s.scopes[scope]) then u == s
            else
              && c in u.conditions && u.conditions[c].scope == scope && u.conditions[c].settled == eager
              && OnCancelCondition(c) !in u.ran
  {
    ConditionIsNew(s);
    hide Inv;
  }

  lemma ConditionOutcome(u: State, c: nat, more: seq<Event>)
    requires Inv(u) && Legal(u, more) && Inv(After(u, more)) && Extends(u, After(u, more)) && Quiescent(After(u, more))
    requires c in u.conditions && OnCancelCondition(c) !in u.ran
    ensures var t := After(u, more);
            && c in t.conditions && t.conditions[c].scope == u.conditions[c].scope < |t.scopes|
            && var scope := t.conditions[c].scope;
            t.conditions[c].blocked <==>
              && !u.conditions[c].settled && Unblock(c) !in more
              && !(t.scopes[scope].cancellable && CalledAbove(t.scopes, scope))
  {
    var t := After(u, more);
    assert ConditionGrows(u.conditions[c], t.conditions[c]);
    hide Inv, Next, Legal, After, Extends, Quiescent, CalledAbove;
    RunBlocks(u, more, c);
    RanInRun(u, more, OnCancelCondition(c));
    ConditionRests(t, c);
  }

  // ---- scopes

  /** No race runs in a scope. */
  predicate RaceFree(s: State, i: nat) { i < |s.scopes| && forall k :: 0 <= k < |s.races| ==> s.races[k].scope != i }

  lemma StepCallsOnly(s: State, e: Event, i: nat)
    requires Enabled(s, e) && RaceFree(s, i)
    ensures RaceFree(Next(s, e), i)
    ensures Next(s, e).scopes[i].called <==> s.scopes[i].called || e == CancelScope(i)
    ensures Next(s, e).scopes[i].parent == s.scopes[i].parent
    ensures Next(s, e).scopes[i].cancellable == s.scopes[i].cancellable
  {
    if CommandStep(e) {
      CommandFrame(s, e);
      hide Next;
    } else if e.RunJob? && e.job.OnCancel? {
      HandlerFrame(s.(ran := s.ran + {e.job}), e.job.key);
      hide HandleCancel;
    } else if e.StartOperation? {
      StartFrame(s, e.kind, e.scope);
      hide AddOperation;
    } else if e.StartRace? {
      StartFrame(AddScope(s, e.scope, true), Timer, |s.scopes|);
      hide AddOperation;
    } else {
      hide AddOperation, AddRace, Push;
    }
  }

  lemma {:induction false} RunCallsOnly(s: State, run: seq<Event>, i: nat)
    requires Legal(s, run) && RaceFree(s, i)
    ensures RaceFree(After(s, run), i)
    ensures After(s, run).scopes[i].called <==> s.scopes[i].called || CancelScope(i) in run
    ensures After(s, run).scopes[i].parent == s.scopes[i].parent
    ensures After(s, run).scopes[i].cancellable == s.scopes[i].cancellable
    decreases |run|
  {
    if run != [] {
      FirstStep(s, run);
      hide Next, Enabled, Legal, After;
      StepCallsOnly(s, run[0], i);
      RunCallsOnly(Next(s, run[0]), run[1..], i);
    }
  }

  lemma OpenedScope(s: State, parent: nat, cancellable: bool)
    requires Inv(s) && parent < |s.scopes|
    ensures var u, i := Next(s, NewScope(parent, cancellable)), |s.scopes|;
            && RaceFree(u, i) && !u.scopes[i].called && u.scopes[i].parent == Some(parent)
            && u.scopes[i].cancellable == cancellable
  {
    forall k | 0 <= k < |s.races| ensures s.races[k].scope < |s.scopes| {
      assert RaceOk(s, k);
    }
  }

  lemma FlaggedBelow(s: State, i: nat, parent: nat)
    requires Inv(s) && Quiescent(s) && i < |s.scopes| && s.scopes[i].parent == Some(parent)
    ensures parent < i && (s.scopes[i].flagged <==> s.scopes[i].called || s.scopes[parent].flagged)
    ensures CalledAbove(s.scopes, parent) <==> s.scopes[parent].flagged
  {
    assert ScopeOk(s.scopes, s.ran, i);
    CancelledExactlyBelowACall(s, i);
    CancelledExactlyBelowACall(s, parent);
  }

  /** At rest a scope that was opened under another one is flagged exactly if `cancel` was called on it or the other one
      is flagged, cancellable or not. */
  lemma ScopeFlaggedExactlyWhen(before: seq<Event>, parent: nat, cancellable: bool, more: seq<Event>)
    requires Legal(INIT, before + ([NewScope(parent, cancellable)] + more))
    requires Quiescent(After(INIT, before + ([NewScope(parent, cancellable)] + more)))
    ensures Legal(INIT, before) && parent < |After(INIT, before).scopes|
    ensures var i, t := |After(INIT, before).scopes|, After(INIT, before + ([NewScope(parent, cancellable)] + more));
            && parent < i < |t.scopes|
            && t.scopes[i].parent == Some(parent) && t.scopes[i].cancellable == cancellable
            && (t.scopes[i].flagged <==> CancelScope(i) in more || t.scopes[parent].flagged)
  {
    RunAround(before, NewScope(parent, cancellable), more);
    var s := After(INIT, before);
    OpenedScope(s, parent, cancellable);
    var u, i := Next(s, NewScope(parent, cancellable)), |s.scopes|;
    hide Inv, Next, Legal, After, Quiescent, Extends;
    RunCallsOnly(u, more, i);
    FlaggedBelow(After(u, more), i, parent);
  }

  lemma RootFlaggedExactlyWhen(run: seq<Event>)
    requires Legal(INIT, run) && Quiescent(After(INIT, run))
    ensures |After(INIT, run).scopes| > 0
    ensures After(INIT, run).scopes[0].flagged <==> CancelScope(0) in run
  {
    InitInv();
    RunKeepsInv(INIT, run);
    RunCallsOnly(INIT, run, 0);
    CancelledExactlyBelowACall(After(INIT, run), 0);
    assert ScopeOk(After(INIT, run).scopes, After(INIT, run).ran, 0);
    hide Legal, After, Quiescent;
  }

  // ---- conditions with a timeout

  /** The timer or the condition of a race has settled, or its scope was cancelled. */
  predicate Touched(s: State, r: Race) { RaceSettled(s, r) || (r.scope < |s.scopes| && s.scopes[r.scope].rejected) }

  lemma RejectsOnlyBy(s: State, e: Event, i: nat)
    requires Enabled(s, e) && i < |s.scopes| && i < |Next(s, e).scopes|
    requires Next(s, e).scopes[i].rejected && !s.scopes[i].rejected
    ensures e == CancelScope(i) || e == RunJob(Link(i)) ||
            (e.RunJob? && e.job.Finally? && e.job.race < |s.races| && s.races[e.job.race].scope == i)
  {
    if CommandStep(e) {
      CommandFrame(s, e);
      hide Next;
    } else if e.RunJob? && e.job.OnCancel? {
      HandlerFrame(s.(ran := s.ran + {e.job}), e.job.key);
      hide HandleCancel;
    } else if e.StartOperation? {
      StartFrame(s, e.kind, e.scope);
      hide AddOperation;
    } else if e.StartRace? {
      StartFrame(AddScope(s, e.scope, true), Timer, |s.scopes|);
      hide AddOperation;
    } else {
      hide AddOperation, AddRace, Push;
    }
  }

  /** What can end a race: its timer fires, its condition turns true, or its own scope is cancelled. */
  predicate Ends(e: Event, r: Race) {
    || e == Resolve(r.timer) || e == CancelScope(r.scope) || (r.condition.Some? && e == Unblock(r.condition.value))
  }

  /** The first touch of a race comes from outside: by such a step, or from a cancelled parent. */
  lemma StepTouches(s: State, e: Event, i: nat)
    requires Inv(s) && Enabled(s, e) && Inv(Next(s, e)) && Extends(s, Next(s, e)) && i < |s.races|
    requires !Touched(s, s.races[i]) && Touched(Next(s, e), s.races[i])
    ensures var r := s.races[i];
            r.scope < |s.scopes| && (Ends(e, r) || (e == RunJob(Link(r.scope)) && Queued(s, Link(r.scope))))
  {
    var r, t := s.races[i], Next(s, e);
    RaceShape(s, i);
    RaceShape(t, i);
    assert t.races[i] == r;
    hide Next, Inv, Extends, Enabled, RaceOk;
    if t.scopes[r.scope].rejected {
      RejectsOnlyBy(s, e, r.scope);
      OwnCallback(s, e, i);
    } else if t.operations[r.timer].settled {
      StepSettles(s, e, r.timer);
      if e == RunJob(OnCancel(r.timer)) {
        HandlerNeedsRejection(s, e, r.timer);
      }
    } else {
      StepBlocks(s, e, r.condition.value);
      if e == RunJob(OnCancelCondition(r.condition.value)) {
        HandlerOfCondition(s, e, r.condition.value);
      }
    }
  }

  lemma RaceShape(s: State, i: nat)
    requires Inv(s) && i < |s.races|
    ensures var r := s.races[i];
            && r.scope < |s.scopes| && r.timer in s.operations && s.operations[r.timer].scope == r.scope
            && (r.condition.Some? ==>
                 r.condition.value in s.conditions && s.conditions[r.condition.value].scope == r.scope)
    ensures forall j :: 0 <= j < |s.races| && s.races[j].scope == s.races[i].scope ==> j == i
  {
    assert RaceOk(s, i);
  }

  lemma OwnCallback(s: State, e: Event, i: nat)
    requires Enabled(s, e) && i < |s.races|
    requires forall j :: 0 <= j < |s.races| && s.races[j].scope == s.races[i].scope ==> j == i
    ensures e.RunJob? && e.job.Finally? && e.job.race < |s.races| && s.races[e.job.race].scope == s.races[i].scope ==>
              RaceSettled(s, s.races[i])
    ensures e.RunJob? ==> Queued(s, e.job)
  {
    hide RaceSettled;
  }

  lemma HandlerNeedsRejection(s: State, e: Event, key: Key)
    requires Enabled(s, e) && e == RunJob(OnCancel(key))
    ensures key in s.operations && s.operations[key].scope < |s.scopes| && s.scopes[s.operations[key].scope].rejected
  {
  }

  lemma HandlerOfCondition(s: State, e: Event, c: nat)
    requires Enabled(s, e) && e == RunJob(OnCancelCondition(c))
    ensures c in s.conditions && s.conditions[c].scope < |s.scopes| && s.scopes[s.conditions[c].scope].rejected
  {
  }

  ghost predicate CalledAt(s: State, i: nat) { i < |s.scopes| && CalledAbove(s.scopes, i) }

  lemma CalledStays(s: State, t: State, i: nat)
    requires Extends(s, t) && CalledAt(s, i)
    ensures CalledAt(t, i)
  {
    CalledAboveGrows(s.scopes, t.scopes, i);
  }

  lemma ParentCalled(s: State, i: nat)
    requires Inv(s) && Queued(s, Link(i))
    ensures CalledAt(s, s.scopes[i].parent.value)
  {
    assert ScopeOk(s.scopes, s.ran, s.scopes[i].parent.value);
  }

  lemma {:induction false} RunTouches(s: State, i: nat, parent: nat, run: seq<Event>)
    requires Inv(s) && Legal(s, run) && i < |s.races| && !Touched(s, s.races[i])
    requires s.races[i].scope < |s.scopes| && s.scopes[s.races[i].scope].parent == Some(parent)
    requires Touched(After(s, run), s.races[i])
    ensures (exists e :: e in run && Ends(e, s.races[i])) || CalledAt(After(s, run), parent)
    decreases |run|
  {
    if run != [] {
      var n, rest := Next(s, run[0]), run[1..];
      assert run == [run[0]] + rest;
      StepKeepsInv(s, run[0]);
      RunKeepsInv(n, rest);
      assert ScopeGrows(s.scopes[s.races[i].scope], n.scopes[s.races[i].scope]);
      if Touched(n, s.races[i]) {
        StepTouches(s, run[0], i);
        if !Ends(run[0], s.races[i]) {
          ParentCalled(s, s.races[i].scope);
          CalledStays(s, n, parent);
          CalledStays(n, After(n, rest), parent);
        }
      } else {
        hide Inv, Next, Enabled, Extends, Touched, Ends;
        RunTouches(n, i, parent, rest);
      }
    }
  }

  lemma StepCalls(s: State, scope: nat)
    requires scope < |s.scopes|
    ensures |Next(s, CancelScope(scope)).scopes| == |s.scopes| && Next(s, CancelScope(scope)).scopes[scope].called
  {
  }

  lemma {:induction false} RunCalls(s: State, run: seq<Event>, scope: nat)
    requires Inv(s) && Legal(s, run) && scope < |s.scopes| && CancelScope(scope) in run
    ensures scope < |After(s, run).scopes| && After(s, run).scopes[scope].called
    decreases |run|
  {
    var n, rest := Next(s, run[0]), run[1..];
    assert run == [run[0]] + rest;
    StepKeepsInv(s, run[0]);
    if run[0] == CancelScope(scope) {
      StepCalls(s, scope);
      RunKeepsInv(n, rest);
      assert ScopeGrows(n.scopes[scope], After(n, rest).scopes[scope]);
    } else {
      hide Inv, Next, Enabled;
      RunCalls(n, rest, scope);
    }
  }

  /** The race that a call makes. */
  lemma RaceMade(s: State, parent: nat, eager: bool)
    requires Inv(s) && parent < |s.scopes|
    ensures var u, scope, refused := Next(s, StartRace(parent, eager)), |s.scopes|, s.scopes[parent].flagged;
            var r := Race(scope, Key(Timers, s.timers), if refused then None else Some(s.nextCondition));
            && u.races == s.races + [r] && scope < |u.scopes|
            && u.scopes[scope] == Scope(Some(parent), true, refused, false, false)
            && u.scopes[parent] == s.scopes[parent]
            && r.timer in u.operations && !u.operations[r.timer].settled
            && u.operations[r.timer].mode.RejectOnly? == refused
            && (!refused ==> s.nextCondition in u.conditions && u.conditions[s.nextCondition].settled == eager)
  {
    StartFrame(AddScope(s, parent, true), Timer, |s.scopes|);
    hide AddOperation;
  }

  lemma RaceIsTouched(u: State, i: nat, parent: nat, more: seq<Event>)
    requires Inv(u) && Legal(u, more) && Quiescent(After(u, more)) && IsRace(u, i, parent)
    requires || Touched(u, u.races[i]) || (exists e :: e in more && Ends(e, u.races[i]))
             || CalledAt(After(u, more), parent)
    ensures RaceSettled(After(u, more), u.races[i])
  {
    var r, t := u.races[i], After(u, more);
    RunKeepsInv(u, more);
    RaceStays(u, t, i);
    hide Inv, Legal, After, Next, Quiescent, Extends;
    if CalledAt(u, parent) || CalledAt(t, parent) || CancelScope(r.scope) in more {
      if CalledAt(u, parent) {
        CalledStays(u, t, parent);
      } else if CancelScope(r.scope) in more {
        RunCalls(u, more, r.scope);
      }
      CalledRaceSettles(t, i, parent);
    } else if Resolve(r.timer) in more {
      RunSettles(u, more, r.timer);
    } else if r.condition.Some? && Unblock(r.condition.value) in more {
      RunBlocks(u, more, r.condition.value);
    } else {
      TouchedStays(u, t, i, parent);
    }
  }

  lemma RaceStays(u: State, t: State, i: nat)
    requires Inv(u) && Inv(t) && Extends(u, t) && i < |u.races|
    ensures var r := u.races[i];
            && i < |t.races| && t.races[i] == r && r.scope < |u.scopes| <= |t.scopes|
            && t.scopes[r.scope].parent == u.scopes[r.scope].parent
            && r.timer in u.operations && r.timer in t.operations
            && (u.operations[r.timer].settled ==> t.operations[r.timer].settled)
            && (r.condition.Some? ==>
                 && r.condition.value in u.conditions && r.condition.value in t.conditions
                 && (u.conditions[r.condition.value].settled ==> t.conditions[r.condition.value].settled))
  {
    var r := u.races[i];
    assert RaceOk(u, i);
    assert ScopeGrows(u.scopes[r.scope], t.scopes[r.scope]);
    assert OperationGrows(u.operations[r.timer], t.operations[r.timer]);
    if r.condition.Some? {
      assert ConditionGrows(u.conditions[r.condition.value], t.conditions[r.condition.value]);
    }
    hide Inv, RaceOk;
  }

  lemma CalledRaceSettles(t: State, i: nat, parent: nat)
    requires Inv(t) && Quiescent(t) && i < |t.races| && t.races[i].scope < |t.scopes|
    requires t.scopes[t.races[i].scope].called ||
             (t.scopes[t.races[i].scope].parent == Some(parent) && CalledAt(t, parent))
    ensures RaceSettled(t, t.races[i])
  {
    RaceAtRest(t, i);
    assert ScopeOk(t.scopes, t.ran, t.races[i].scope);
    hide Inv, Quiescent, RaceSettled;
  }

  /** A race that was touched where it was made was settled there, or is in a scope below a flagged one. */
  lemma TouchedStays(u: State, t: State, i: nat, parent: nat)
    requires Inv(u) && Inv(t) && Extends(u, t) && IsRace(u, i, parent) && !CalledAt(u, parent) && Touched(u, u.races[i])
    ensures RaceSettled(t, u.races[i])
  {
    RaceStays(u, t, i);
    assert ScopeOk(u.scopes, u.ran, u.races[i].scope);
    hide Inv, Extends;
  }

  /** At rest a condition with a timeout has settled exactly if its function was true, at once or later, its timer
      fired, or it was cancelled from outside, by a scope around it or by its own. */
  lemma RaceSettlesExactlyWhen(before: seq<Event>, parent: nat, eager: bool, more: seq<Event>)
    requires Legal(INIT, before + ([StartRace(parent, eager)] + more))
    requires Quiescent(After(INIT, before + ([StartRace(parent, eager)] + more)))
    ensures Legal(INIT, before) && parent < |After(INIT, before).scopes|
    ensures var s, t := After(INIT, before), After(INIT, before + ([StartRace(parent, eager)] + more));
            && |s.races| < |t.races| && parent < |t.scopes|
            && var r := t.races[|s.races|];
            && r == Race(|s.scopes|, Key(Timers, s.timers),
                         if s.scopes[parent].flagged then None else Some(s.nextCondition))
            && (RaceSettled(t, r) <==>
                || (eager && r.condition.Some?) || Resolve(r.timer) in more
                || (r.condition.Some? && Unblock(r.condition.value) in more)
                || CancelScope(r.scope) in more || CalledAbove(t.scopes, parent))
  {
    RunAround(before, StartRace(parent, eager), more);
    var s := After(INIT, before);
    RaceIsNew(s, parent, eager);
    var u, i := Next(s, StartRace(parent, eager)), |s.races|;
    var t, r := After(u, more), u.races[i];
    assert u.races <= t.races && t.races[i] == r && |u.scopes| <= |t.scopes|;
    hide Inv, Next, Legal, After, Quiescent, Extends, Touched, RaceSettled, CalledAbove, Enabled;
    RaceOutcome(u, i, parent, more);
    EndsIn(more, r);
  }

  /** The race that a call makes, as the lemmas about its outcome need it. */
  ghost predicate IsRace(u: State, i: nat, parent: nat) {
    && i < |u.races|
    && var r := u.races[i];
    && r.scope < |u.scopes| && u.scopes[r.scope].parent == Some(parent)
    && (u.scopes[r.scope].flagged ==> CalledAt(u, parent))
    && r.timer in u.operations && (u.operations[r.timer].mode.RejectOnly? ==> u.scopes[r.scope].flagged)
    && (r.condition.Some? ==> r.condition.value in u.conditions)
  }

  lemma RaceIsNew(s: State, parent: nat, eager: bool)
    requires Inv(s) && Enabled(s, StartRace(parent, eager))
    requires Inv(Next(s, StartRace(parent, eager))) && Extends(s, Next(s, StartRace(parent, eager)))
    ensures var u, i := Next(s, StartRace(parent, eager)), |s.races|;
            && parent < |s.scopes| && IsRace(u, i, parent)
            && u.races[i] == Race(|s.scopes|, Key(Timers, s.timers),
                                  if s.scopes[parent].flagged then None else Some(s.nextCondition))
            && (Touched(u, u.races[i]) <==> eager && u.races[i].condition.Some?)
  {
    var u := Next(s, StartRace(parent, eager));
    RaceMade(s, parent, eager);
    if s.scopes[parent].flagged {
      assert ScopeOk(s.scopes, s.ran, parent);
      CalledStays(s, u, parent);
    }
    hide Inv, Next, Extends, CalledAt, CalledAbove;
  }

  lemma RaceOutcome(u: State, i: nat, parent: nat, more: seq<Event>)
    requires Inv(u) && Legal(u, more) && Quiescent(After(u, more)) && IsRace(u, i, parent)
    ensures RaceSettled(After(u, more), u.races[i]) <==>
            || Touched(u, u.races[i]) || (exists e :: e in more && Ends(e, u.races[i]))
            || CalledAt(After(u, more), parent)
  {
    var t, r := After(u, more), u.races[i];
    hide Inv, Next, Legal, After, Quiescent, Extends, Touched, RaceSettled, CalledAt, Ends;
    if Touched(u, r) || (exists e :: e in more && Ends(e, r)) || CalledAt(t, parent) {
      RaceIsTouched(u, i, parent, more);
    } else if RaceSettled(t, r) {
      SettledIsTouched(t, r);
      RunTouches(u, i, parent, more);
      assert false;
    }
  }

  lemma EndsIn(run: seq<Event>, r: Race)
    ensures (exists e :: e in run && Ends(e, r)) <==>
            || Resolve(r.timer) in run || CancelScope(r.scope) in run
            || (r.condition.Some? && Unblock(r.condition.value) in run)
  {
    assert Ends(Resolve(r.timer), r) && Ends(CancelScope(r.scope), r);
    assert r.condition.Some? ==> Ends(Unblock(r.condition.value), r);
  }

  lemma SettledIsTouched(s: State, r: Race)
    requires RaceSettled(s, r)
    ensures Touched(s, r)
  {
  }

  // ---- the numbers that are taken

  /** The calls that took a number, refused ones included. */
  function Calls(run: seq<Event>, space: Space): nat {
    if run == [] then 0
    else
      var first := match run[0]
                   case StartOperation(kind, _) => SpaceOf(kind) == space
                   case RefuseOperation(kind) => SpaceOf(kind) == space
                   case StartRace(_, _) => space == Timers
                   case _ => false;
      (if first then 1 else 0) + Calls(run[1..], space)
  }

  lemma StepTakes(s: State, e: Event, space: Space)
    requires Enabled(s, e)
    ensures NextSeq(Next(s, e), space) == NextSeq(s, space) + Calls([e], space)
  {
    assert Calls([], space) == 0 && [e][1..] == [];
    hide HandleCancel;
    if e.StartOperation? {
      StartFrame(s, e.kind, e.scope);
      hide AddOperation;
    } else if e.StartRace? {
      StartFrame(AddScope(s, e.scope, true), Timer, |s.scopes|);
      hide AddOperation;
    } else if e.RunJob? && e.job.OnCancel? {
      HandlerFrame(s.(ran := s.ran + {e.job}), e.job.key);
    } else {
      hide AddOperation, AddRace;
    }
  }

  lemma CallsMore(e: Event, run: seq<Event>, space: Space)
    ensures Calls([e] + run, space) == Calls([e], space) + Calls(run, space)
  {
    assert ([e] + run)[1..] == run && [e][1..] == [];
    assert Calls([], space) == 0;
  }

  lemma {:induction false} RunTakes(s: State, run: seq<Event>, space: Space)
    requires Legal(s, run)
    ensures NextSeq(After(s, run), space) == NextSeq(s, space) + Calls(run, space)
    decreases |run|
  {
    if run != [] {
      StepTakes(s, run[0], space);
      CallsMore(run[0], run[1..], space);
      assert run == [run[0]] + run[1..];
      hide Next, Enabled, NextSeq, Calls;
      RunTakes(Next(s, run[0]), run[1..], space);
    }
  }

  /** Numbers start at 1 and leave no gap, in each space by itself: a call takes the number of calls before it, plus
      1. */
  lemma NumbersCountCalls(run: seq<Event>, space: Space)
    requires Legal(INIT, run)
    ensures NextSeq(After(INIT, run), space) == 1 + Calls(run, space)
  {
    RunTakes(INIT, run, space);
  }

  // ---- the terminal command

  function Terminals(commands: seq<Command>): seq<Final> {
    if commands == [] then []
    else
      var before, last := Terminals(commands[..|commands| - 1]), commands[|commands| - 1];
      if last.Terminal? then before + [last.final] else before
  }

  /** How the workflow first ended. */
  function FirstFinal(run: seq<Event>): seq<Final> {
    if run == [] then [] else if run[0].Finish? then [run[0].final] else FirstFinal(run[1..])
  }

  lemma TerminalsMore(commands: seq<Command>, c: Command)
    ensures Terminals(commands + [c]) == if c.Terminal? then Terminals(commands) + [c.final] else Terminals(commands)
  {
    assert (commands + [c])[..|commands|] == commands;
  }

  lemma PushTerminals(s: State, c: Command, complete: bool)
    ensures Terminals(AllCommands(Push(s, c, complete))) ==
            if c.Terminal? && !s.ledger.completed then Terminals(AllCommands(s)) + [c.final]
            else Terminals(AllCommands(s))
  {
    var t := Push(s, c, complete);
    TerminalsMore(AllCommands(s), c);
    assert s.ledger.sent + (s.ledger.commands + [c]) == AllCommands(s) + [c];
    hide Terminals;
  }

  lemma StepEnds(s: State, e: Event)
    requires Enabled(s, e)
    ensures Terminals(AllCommands(Next(s, e))) ==
            if e.Finish? && !s.ledger.completed then Terminals(AllCommands(s)) + [e.final]
            else Terminals(AllCommands(s))
  {
    hide Terminals, Push;
    match e
    case Finish(final) => PushTerminals(s, Terminal(final), true);
    case Answer(id) => PushTerminals(s.(queries := Answered(s.queries, id)), RespondToQuery(id), false);
    case StartOperation(kind, scope) => StartEnds(s, kind, scope);
    case StartRace(parent, eager) =>
      StartEnds(AddScope(s, parent, true), Timer, |s.scopes|);
      hide AddOperation;
    case RunJob(job) =>
      if job.OnCancel? {
        HandlerEnds(s.(ran := s.ran + {job}), job.key);
        hide HandleCancel;
      }
    case Conclude =>
      assert Next(s, e).ledger.sent + [] == AllCommands(s);
    case _ =>
  }

  lemma StartEnds(s: State, kind: Kind, scope: nat)
    requires scope < |s.scopes|
    ensures Terminals(AllCommands(AddOperation(s, kind, scope))) == Terminals(AllCommands(s))
  {
    hide Terminals, Push;
    var key, o := Key(SpaceOf(kind), NextSeq(s, SpaceOf(kind))), NewOperation(s, kind, scope);
    var t := TakeSeq(s, SpaceOf(kind)).(operations := s.operations[key := o]);
    PushTerminals(t, Start(kind, key), false);
  }

  lemma HandlerEnds(s: State, key: Key)
    requires key in s.operations
    ensures Terminals(AllCommands(HandleCancel(s, key))) == Terminals(AllCommands(s))
  {
    hide Terminals, Push;
    PushTerminals(s, Cancel(s.operations[key].kind, key), false);
  }

  lemma {:induction false} RunEnds(s: State, run: seq<Event>)
    requires Legal(s, run)
    ensures Terminals(AllCommands(After(s, run))) ==
            Terminals(AllCommands(s)) + if s.ledger.completed then [] else FirstFinal(run)
    decreases |run|
  {
    var all := Terminals(AllCommands(s));
    assert all + [] == all;
    if run != [] {
      StepEnds(s, run[0]);
      StepCompletes(s, run[0]);
      hide Next, Enabled, Terminals, AllCommands;
      RunEnds(Next(s, run[0]), run[1..]);
    }
  }

  /** Over all activations the terminal commands are the first way in which the workflow ended, and no other. */
  lemma TerminalExactlyOnce(run: seq<Event>)
    requires Legal(INIT, run)
    ensures Terminals(AllCommands(After(INIT, run))) == FirstFinal(run)
  {
    RunEnds(INIT, run);
    hide Legal, After;
    assert [] + FirstFinal(run) == FirstFinal(run);
    assert AllCommands(INIT) == [];
  }
}
