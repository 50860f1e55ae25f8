/** What a step of the workflow runtime never takes back. */
module WorkflowGrowth {
  import opened WorkflowState
  import opened WorkflowOperations

  /** Nothing is forgotten: scopes, operations, conditions and races keep their place, flags stay set, and what left
      the activator's maps does not come back. */
  ghost predicate Extends(s: State, t: State) {
    && |s.scopes| <= |t.scopes|
    && (forall i :: 0 <= i < |s.scopes| ==> ScopeGrows(s.scopes[i], t.scopes[i]))
    && (forall k :: k in s.operations ==> k in t.operations && OperationGrows(s.operations[k], t.operations[k]))
    && s.nextCondition <= t.nextCondition
    && (forall c :: c in s.conditions ==> c in t.conditions && ConditionGrows(s.conditions[c], t.conditions[c]))
    && s.races <= t.races && s.ran <= t.ran
  }

  predicate ScopeGrows(a: Scope, b: Scope) {
    && a.parent == b.parent && a.cancellable == b.cancellable
    && (a.flagged ==> b.flagged) && (a.rejected ==> b.rejected) && (a.called ==> b.called)
  }

  predicate OperationGrows(a: Operation, b: Operation) {
    && a.kind == b.kind && a.scope == b.scope && a.mode == b.mode && a.started == b.started
    && (a.cancelled ==> b.cancelled) && (a.settled ==> b.settled) && (b.registered ==> a.registered)
  }

  predicate ConditionGrows(a: Condition, b: Condition) {
    && a.scope == b.scope && a.linked == b.linked && (a.settled ==> b.settled) && (b.blocked ==> a.blocked)
  }

  lemma ExtendsItself(s: State)
    ensures Extends(s, s)
  {
  }

  lemma ExtendsTransitive(s: State, t: State, u: State)
    requires Extends(s, t) && Extends(t, u)
    ensures Extends(s, u)
  {
    forall i | 0 <= i < |s.scopes| ensures ScopeGrows(s.scopes[i], u.scopes[i]) {
      assert ScopeGrows(s.scopes[i], t.scopes[i]) && ScopeGrows(t.scopes[i], u.scopes[i]);
    }
  }

  lemma StartExtends(s: State, kind: Kind, scope: nat)
    requires scope < |s.scopes| && OperationsInv(s)
    ensures Extends(s, AddOperation(s, kind, scope))
  {
    var key := Key(SpaceOf(kind), NextSeq(s, SpaceOf(kind)));
    assert key !in s.operations by { assert KeyOk(s, key); }
    StartFrame(s, kind, scope);
    hide AddOperation, NewOperation, KeyOk;
  }

  lemma HandlerExtends(s: State, key: Key)
    requires OperationsInv(s) && Queued(s, OnCancel(key))
    ensures Extends(s, Run(s, OnCancel(key)))
  {
    assert KeyOk(s, key);
    var t := s.(ran := s.ran + {OnCancel(key)});
    HandlerFrame(t, key);
    hide HandleCancel, KeyOk, Queued;
  }

  lemma AddScopeExtends(s: State, parent: nat, cancellable: bool)
    requires parent < |s.scopes|
    ensures Extends(s, AddScope(s, parent, cancellable))
  {
  }

  lemma AddConditionExtends(s: State, scope: nat, eager: bool)
    requires scope < |s.scopes| && s.nextCondition !in s.conditions
    ensures Extends(s, AddCondition(s, scope, eager))
  {
  }

  lemma MoreRacesExtend(s: State, race: Race)
    ensures Extends(s, s.(races := s.races + [race]))
  {
  }

  lemma RaceExtends(s: State, parent: nat, eager: bool)
    requires parent < |s.scopes| && OperationsInv(s)
    requires s.nextCondition !in s.conditions
    ensures Extends(s, AddRace(s, parent, eager))
  {
    var scope, t, v := |s.scopes|, AddScope(s, parent, true), AddRace(s, parent, eager);
    StepKeepsOperations(s, NewScope(parent, true));
    StartFrame(t, Timer, scope);
    hide Extends, OperationsInv, AddOperation, NewOperation;
    var u := AddOperation(t, Timer, scope);
    var w := AddCondition(u, scope, eager);
    AddScopeExtends(s, parent, true);
    StartExtends(t, Timer, scope);
    AddConditionExtends(u, scope, eager);
    MoreRacesExtend(w, v.races[|w.races|]);
    ExtendsTransitive(s, t, u);
    ExtendsTransitive(s, u, w);
    ExtendsTransitive(s, w, v);
  }

  lemma RejectExtends(s: State, scope: nat, called: bool)
    requires scope < |s.scopes|
    ensures Extends(s, Reject(s, scope, called))
  {
  }

  lemma JobExtends(s: State, job: Job)
    requires Queued(s, job) && OperationsInv(s)
    ensures Extends(s, Run(s, job))
  {
    var t := s.(ran := s.ran + {job});
    match job
    case OnCancel(key) => HandlerExtends(s, key);
    case Link(child) =>
      RejectExtends(t, child, false);
      ExtendsTransitive(s, t, Run(s, job));
    case Finally(race) =>
      RejectExtends(t, t.races[race].scope, true);
      ExtendsTransitive(s, t, Run(s, job));
    case OnCancelCondition(_) =>
  }

  lemma UnblockExtends(s: State, c: nat)
    requires Enabled(s, Unblock(c))
    ensures Extends(s, Next(s, Unblock(c)))
  {
  }

  lemma ResolveExtends(s: State, key: Key)
    requires Enabled(s, Resolve(key)) && OperationsInv(s)
    ensures Extends(s, Next(s, Resolve(key)))
  {
    assert KeyOk(s, key);
  }

  lemma CommandStepExtends(s: State, e: Event)
    requires Enabled(s, e) && CommandStep(e)
    ensures Extends(s, Next(s, e))
  {
    CommandFrame(s, e);
    hide Next;
  }

  lemma StepExtends(s: State, e: Event)
    requires Enabled(s, e) && OperationsInv(s) && s.nextCondition !in s.conditions
    ensures Extends(s, Next(s, e))
  {
    hide Extends, OperationsInv, AddOperation, Run, AddRace, Settle, Reject, AddCondition, AddScope;
    if CommandStep(e) {
      CommandStepExtends(s, e);
    } else if e.StartOperation? {
      StartExtends(s, e.kind, e.scope);
    } else if e.StartRace? {
      RaceExtends(s, e.scope, e.eager);
    } else if e.RunJob? {
      JobExtends(s, e.job);
    } else if e.Resolve? {
      ResolveExtends(s, e.key);
    } else if e.NewScope? {
      AddScopeExtends(s, e.parent, e.cancellable);
    } else if e.CancelScope? {
      RejectExtends(s, e.scope, true);
    } else if e.StartCondition? {
      AddConditionExtends(s, e.scope, e.eager);
    } else {
      UnblockExtends(s, e.condition);
    }
  }
}
