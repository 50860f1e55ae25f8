/** Blocked conditions, and the condition with a timeout: a race between a timer and a condition in its own scope. */
module WorkflowConditions {
  import opened WorkflowState
  import opened WorkflowOperations
  import opened WorkflowGrowth

  predicate ConditionOk(s: State, c: nat)
    requires c in s.conditions
  {
    var o := s.conditions[c];
    && c < s.nextCondition && o.scope < |s.scopes| && o.blocked == !o.settled
    && (o.linked && OnCancelCondition(c) in s.ran ==> !o.blocked)
  }

  ghost predicate ConditionsInv(s: State) {
    && (forall c :: c in s.conditions ==> ConditionOk(s, c))
    && (forall c: nat :: OnCancelCondition(c) in s.ran ==> c in s.conditions)
  }

  /** An operation reacts to the cancellation of its scope unless the scope is not cancellable; one that only waits
      for a rejection was made in a scope that was flagged. */
  predicate OperationReacts(s: State, k: Key)
    requires k in s.operations
  {
    var o := s.operations[k];
    && o.scope < |s.scopes| && (o.mode.Detached? <==> !s.scopes[o.scope].cancellable)
    && (o.mode.RejectOnly? ==> s.scopes[o.scope].flagged)
  }

  predicate ConditionReacts(s: State, c: nat)
    requires c in s.conditions
  {
    var o := s.conditions[c];
    o.scope < |s.scopes| && (o.linked <==> s.scopes[o.scope].cancellable)
  }

  /** A cancellation handler has run only where its scope was rejected. */
  ghost predicate ReactionsInv(s: State) {
    && (forall k :: k in s.operations ==> OperationReacts(s, k))
    && (forall c :: c in s.conditions ==> ConditionReacts(s, c))
    && (forall k: Key :: OnCancel(k) in s.ran ==>
         k in s.operations && s.operations[k].scope < |s.scopes| && s.scopes[s.operations[k].scope].rejected)
    && (forall c: nat :: OnCancelCondition(c) in s.ran ==>
         && c in s.conditions && s.conditions[c].linked
         && s.conditions[c].scope < |s.scopes| && s.scopes[s.conditions[c].scope].rejected)
  }

  predicate RaceOk(s: State, i: nat)
    requires i < |s.races|
  {
    var r := s.races[i];
    && r.scope < |s.scopes| && s.scopes[r.scope].cancellable
    && r.timer in s.operations && s.operations[r.timer].kind.Timer? && s.operations[r.timer].scope == r.scope
    && !s.operations[r.timer].mode.Detached?
    && (r.condition.None? ==> s.operations[r.timer].mode.RejectOnly?)
    && (r.condition.Some? ==> r.condition.value in s.conditions && s.conditions[r.condition.value].linked &&
                              s.conditions[r.condition.value].scope == r.scope)
    && (Finally(i) in s.ran ==> s.scopes[r.scope].called)
  }

  ghost predicate RacesInv(s: State) {
    && (forall i :: 0 <= i < |s.races| ==> RaceOk(s, i))
    && (forall i, j :: 0 <= i < j < |s.races| ==> s.races[i].scope < s.races[j].scope)
    && (forall i: nat :: Finally(i) in s.ran ==> i < |s.races|)
  }

  // ---- conditions

  /** Steps that neither touch a condition nor run one's callback. */
  ghost predicate AsideConditions(s: State, t: State) {
    && t.conditions == s.conditions && t.nextCondition == s.nextCondition && |t.scopes| >= |s.scopes|
    && forall c: nat :: OnCancelCondition(c) in t.ran <==> OnCancelCondition(c) in s.ran
  }

  lemma AsideKeepsConditions(s: State, t: State)
    requires ConditionsInv(s) && AsideConditions(s, t)
    ensures ConditionsInv(t)
  {
    forall c | c in t.conditions ensures ConditionOk(t, c) {
      assert ConditionOk(s, c);
    }
  }

  lemma AddConditionKeeps(s: State, scope: nat, eager: bool)
    requires ConditionsInv(s) && scope < |s.scopes|
    ensures ConditionsInv(AddCondition(s, scope, eager))
  {
    var t := AddCondition(s, scope, eager);
    forall c | c in t.conditions ensures ConditionOk(t, c) {
      if c in s.conditions {
        assert ConditionOk(s, c);
      }
    }
  }

  lemma SettleConditionKeeps(s: State, c: nat, ran: set<Job>)
    requires ConditionsInv(s) && c in s.conditions && s.ran <= ran <= s.ran + {OnCancelCondition(c)}
    ensures var settled := s.conditions[c].(blocked := false, settled := true);
            ConditionsInv(s.(ran := ran, conditions := s.conditions[c := settled]))
  {
    var t := s.(ran := ran, conditions := s.conditions[c := s.conditions[c].(blocked := false, settled := true)]);
    forall d | d in t.conditions ensures ConditionOk(t, d) {
      assert ConditionOk(s, d);
    }
  }

  lemma RaceKeepsConditions(s: State, parent: nat, eager: bool)
    requires ConditionsInv(s) && parent < |s.scopes|
    ensures ConditionsInv(AddRace(s, parent, eager))
  {
    hide ConditionsInv, AddOperation;
    var u := AddScope(s, parent, true);
    StartFrame(u, Timer, |s.scopes|);
    var v := AddOperation(u, Timer, |s.scopes|);
    AsideKeepsConditions(s, v);
    AddConditionKeeps(v, |s.scopes|, eager);
    AsideKeepsConditions(AddCondition(v, |s.scopes|, eager), AddRace(s, parent, eager));
  }

  lemma StepKeepsConditions(s: State, e: Event)
    requires ConditionsInv(s) && Enabled(s, e)
    ensures ConditionsInv(Next(s, e))
  {
    hide ConditionsInv, AddOperation, Run, Push;
    if CommandStep(e) {
      CommandFrame(s, e);
      AsideKeepsConditions(s, Next(s, e));
    } else if e.RunJob? {
      JobKeepsConditions(s, e.job);
    } else if e.StartCondition? {
      AddConditionKeeps(s, e.scope, e.eager);
    } else if e.Unblock? {
      SettleConditionKeeps(s, e.condition, s.ran);
    } else if e.StartRace? {
      RaceKeepsConditions(s, e.scope, e.eager);
    } else {
      if e.StartOperation? {
        StartFrame(s, e.kind, e.scope);
      }
      AsideKeepsConditions(s, Next(s, e));
    }
  }

  lemma JobKeepsConditions(s: State, job: Job)
    requires ConditionsInv(s) && Queued(s, job)
    ensures ConditionsInv(Run(s, job))
  {
    hide ConditionsInv, HandleCancel;
    if job.OnCancelCondition? {
      SettleConditionKeeps(s, job.condition, s.ran + {job});
    } else {
      if job.OnCancel? {
        HandlerFrame(s.(ran := s.ran + {job}), job.key);
      }
      AsideKeepsConditions(s, Run(s, job));
    }
  }

  // ---- reactions to cancellation

  /** A callback has run before or is the step itself; no other step adds a race. */
  lemma RanOfStep(s: State, e: Event)
    requires Enabled(s, e)
    ensures Next(s, e).ran == s.ran + if e.RunJob? then {e.job} else {}
    ensures if e.StartRace? then |Next(s, e).races| == |s.races| + 1 else Next(s, e).races == s.races
  {
    if e.RunJob? {
      RanOfJob(s, e.job);
      hide Run;
    } else if CommandStep(e) {
      CommandFrame(s, e);
      hide Next;
    } else if e.StartOperation? {
      StartFrame(s, e.kind, e.scope);
      hide AddOperation;
    } else if e.StartRace? {
      StartFrame(AddScope(s, e.scope, true), Timer, |s.scopes|);
      hide AddOperation;
    } else {
      hide Push, Run, AddRace;
    }
  }

  lemma RanOfJob(s: State, job: Job)
    requires Queued(s, job)
    ensures Run(s, job).ran == s.ran + {job} && Run(s, job).races == s.races
  {
    if job.OnCancel? {
      HandlerFrame(s.(ran := s.ran + {job}), job.key);
      hide HandleCancel;
    }
  }

  lemma NewReactions(s: State, e: Event, k: Key)
    requires Enabled(s, e) && k in Next(s, e).operations && k !in s.operations
    ensures OperationReacts(Next(s, e), k)
  {
    if e.StartOperation? {
      StartFrame(s, e.kind, e.scope);
      hide AddOperation;
    } else if e.StartRace? {
      StartFrame(AddScope(s, e.scope, true), Timer, |s.scopes|);
      hide AddOperation;
    } else {
      SameOperations(s, e);
      hide Next;
    }
  }

  /** No other step adds an operation. */
  lemma SameOperations(s: State, e: Event)
    requires Enabled(s, e) && !e.StartOperation? && !e.StartRace?
    ensures forall k :: k in Next(s, e).operations <==> k in s.operations
  {
    if CommandStep(e) {
      CommandFrame(s, e);
      hide Next;
    } else if e.RunJob? && e.job.OnCancel? {
      HandlerFrame(s.(ran := s.ran + {e.job}), e.job.key);
      hide HandleCancel;
    } else {
      hide AddOperation, AddRace, Push;
    }
  }

  lemma NewConditionReacts(s: State, e: Event, c: nat)
    requires Enabled(s, e) && c in Next(s, e).conditions && c !in s.conditions
    ensures ConditionReacts(Next(s, e), c)
  {
    if e.StartCondition? {
    } else if e.StartRace? {
      StartFrame(AddScope(s, e.scope, true), Timer, |s.scopes|);
      hide AddOperation;
    } else {
      NoNewConditions(s, e);
      hide Next;
    }
  }

  lemma NoNewConditions(s: State, e: Event)
    requires Enabled(s, e) && !e.StartCondition? && !e.StartRace?
    ensures forall c :: c in Next(s, e).conditions <==> c in s.conditions
  {
    if CommandStep(e) {
      CommandFrame(s, e);
      hide Next;
    } else if e.RunJob? && e.job.OnCancel? {
      HandlerFrame(s.(ran := s.ran + {e.job}), e.job.key);
      hide HandleCancel;
    } else if e.StartOperation? {
      StartFrame(s, e.kind, e.scope);
      hide AddOperation;
    } else {
      hide AddOperation, AddRace, Push;
    }
  }

  lemma OldOperationReacts(s: State, t: State, k: Key)
    requires k in s.operations && OperationReacts(s, k) && Extends(s, t)
    ensures k in t.operations && OperationReacts(t, k)
  {
    assert OperationGrows(s.operations[k], t.operations[k]);
    assert ScopeGrows(s.scopes[s.operations[k].scope], t.scopes[s.operations[k].scope]);
  }

  lemma OldConditionReacts(s: State, t: State, c: nat)
    requires c in s.conditions && ConditionReacts(s, c) && Extends(s, t)
    ensures c in t.conditions && ConditionReacts(t, c)
  {
    assert ConditionGrows(s.conditions[c], t.conditions[c]);
    assert ScopeGrows(s.scopes[s.conditions[c].scope], t.scopes[s.conditions[c].scope]);
  }

  lemma StepKeepsReactions(s: State, e: Event)
    requires ReactionsInv(s) && Enabled(s, e) && Extends(s, Next(s, e))
    ensures ReactionsInv(Next(s, e))
  {
    var t := Next(s, e);
    RanOfStep(s, e);
    assert e.RunJob? ==> Queued(s, e.job);
    hide Next, Enabled, OperationReacts, ConditionReacts;
    forall k | k in t.operations ensures OperationReacts(t, k) {
      if k !in s.operations {
        NewReactions(s, e, k);
      } else {
        OldOperationReacts(s, t, k);
      }
    }
    forall c | c in t.conditions ensures ConditionReacts(t, c) {
      if c !in s.conditions {
        NewConditionReacts(s, e, c);
      } else {
        OldConditionReacts(s, t, c);
      }
    }
    forall c: nat | OnCancelCondition(c) in t.ran
      ensures && c in t.conditions && t.conditions[c].linked
              && t.conditions[c].scope < |t.scopes| && t.scopes[t.conditions[c].scope].rejected
    {
      assert OnCancelCondition(c) in s.ran || Queued(s, OnCancelCondition(c));
      assert ConditionGrows(s.conditions[c], t.conditions[c]);
      assert ScopeGrows(s.scopes[s.conditions[c].scope], t.scopes[s.conditions[c].scope]);
    }
    forall k: Key | OnCancel(k) in t.ran
      ensures k in t.operations && t.operations[k].scope < |t.scopes| && t.scopes[t.operations[k].scope].rejected
    {
      assert OnCancel(k) in s.ran || Queued(s, OnCancel(k));
      assert OperationGrows(s.operations[k], t.operations[k]);
      assert ScopeGrows(s.scopes[s.operations[k].scope], t.scopes[s.operations[k].scope]);
    }
  }

  // ---- races

  /** What makes a race well formed only grows, except for its own callback. */
  lemma RaceGrows(s: State, t: State, i: nat)
    requires i < |s.races| && RaceOk(s, i) && Extends(s, t)
    requires Finally(i) in t.ran ==> Finally(i) in s.ran || t.scopes[s.races[i].scope].called
    ensures RaceOk(t, i)
  {
    var r := s.races[i];
    assert ScopeGrows(s.scopes[r.scope], t.scopes[r.scope]);
    assert OperationGrows(s.operations[r.timer], t.operations[r.timer]);
    if r.condition.Some? {
      assert ConditionGrows(s.conditions[r.condition.value], t.conditions[r.condition.value]);
    }
    assert t.races[i] == r;
  }

  lemma NewRaceOk(s: State, parent: nat, eager: bool)
    requires parent < |s.scopes| && Finally(|s.races|) !in s.ran
    ensures var t := AddRace(s, parent, eager);
            && |t.races| == |s.races| + 1 && t.ran == s.ran && RaceOk(t, |s.races|)
            && t.races[|s.races|].scope == |s.scopes| && s.races <= t.races
  {
    var u, scope := AddScope(s, parent, true), |s.scopes|;
    StartFrame(u, Timer, scope);
    hide AddOperation;
  }

  /** The callback of race `i` calls `cancel` on its scope. */
  ghost predicate RaceCalls(s: State, t: State, i: nat) {
    i < |s.races| && s.races[i].scope < |t.scopes| && t.scopes[s.races[i].scope].called
  }

  lemma FinallyCalls(s: State, i: nat)
    requires Queued(s, Finally(i))
    ensures RaceCalls(s, Run(s, Finally(i)), i)
  {
  }

  lemma OldRaceOk(s: State, e: Event, i: nat)
    requires i < |s.races| && RaceOk(s, i) && Enabled(s, e) && Extends(s, Next(s, e))
    ensures RaceOk(Next(s, e), i)
  {
    RanOfStep(s, e);
    if e == RunJob(Finally(i)) {
      FinallyCalls(s, i);
    }
    hide Run, RaceOk, Queued, AddRace;
    RaceGrows(s, Next(s, e), i);
  }

  lemma RaceIsAdded(s: State, e: Event)
    requires Enabled(s, e) && e.StartRace? && Finally(|s.races|) !in s.ran
    ensures var t := Next(s, e);
            |t.races| == |s.races| + 1 && RaceOk(t, |s.races|) && t.races[|s.races|].scope == |s.scopes|
  {
    NewRaceOk(s, e.scope, e.eager);
    hide AddRace, RaceOk;
  }

  lemma StepKeepsRaces(s: State, e: Event)
    requires RacesInv(s) && Enabled(s, e) && Extends(s, Next(s, e))
    ensures RacesInv(Next(s, e))
  {
    var t := Next(s, e);
    RanOfStep(s, e);
    assert e.RunJob? ==> Queued(s, e.job);
    assert forall i :: 0 <= i < |s.races| ==> RaceOk(s, i) && s.races[i].scope < |s.scopes|;
    hide RaceOk, Next;
    forall i | 0 <= i < |t.races| ensures RaceOk(t, i) && (i == |s.races| ==> t.races[i].scope == |s.scopes|) {
      if i < |s.races| {
        OldRaceOk(s, e, i);
      } else {
        RaceIsAdded(s, e);
      }
    }
    forall i: nat | Finally(i) in t.ran ensures i < |t.races| {
      assert Finally(i) in s.ran || Queued(s, Finally(i));
    }
  }
}
