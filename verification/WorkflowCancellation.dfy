/** Cancellation over a growing tree of scopes: where it reaches, and where it stops. */
module WorkflowCancellation {
  import opened Wrappers
  import opened WorkflowState
  import opened WorkflowOperations
  import opened WorkflowGrowth

  /** `cancel` was called on the scope or on one that encloses it, whatever lies between. */
  predicate CalledAbove(scopes: seq<Scope>, i: nat)
    requires i < |scopes|
  {
    var s := scopes[i];
    s.called || (s.parent.Some? && s.parent.value < i && CalledAbove(scopes, s.parent.value))
  }

  predicate ScopeOk(scopes: seq<Scope>, ran: set<Job>, i: nat)
    requires i < |scopes|
  {
    var s := scopes[i];
    && (s.parent.None? <==> i == 0) && (s.parent.Some? ==> s.parent.value < i)
    && (s.rejected ==> s.flagged) && (s.rejected <==> s.called || Link(i) in ran)
    && (s.flagged ==> CalledAbove(scopes, i))
  }

  ghost predicate TreeOk(scopes: seq<Scope>, ran: set<Job>) {
    && |scopes| > 0
    && (forall i :: 0 <= i < |scopes| ==> ScopeOk(scopes, ran, i))
    && (forall i: nat :: Link(i) in ran ==> i < |scopes|)
  }

  ghost predicate TreeGrows(a: seq<Scope>, b: seq<Scope>) {
    |a| <= |b| && forall i :: 0 <= i < |a| ==> ScopeGrows(a[i], b[i])
  }

  lemma {:induction false} CalledAboveGrows(a: seq<Scope>, b: seq<Scope>, i: nat)
    requires TreeGrows(a, b) && i < |a| && CalledAbove(a, i)
    ensures CalledAbove(b, i)
  {
    assert ScopeGrows(a[i], b[i]);
    if !a[i].called {
      CalledAboveGrows(a, b, a[i].parent.value);
    }
  }

  lemma AddKeepsTree(scopes: seq<Scope>, ran: set<Job>, parent: nat, cancellable: bool)
    requires TreeOk(scopes, ran) && parent < |scopes|
    ensures TreeOk(scopes + [Scope(Some(parent), cancellable, scopes[parent].flagged, false, false)], ran)
  {
    var more := scopes + [Scope(Some(parent), cancellable, scopes[parent].flagged, false, false)];
    forall i | 0 <= i < |more| ensures ScopeOk(more, ran, i) {
      if i < |scopes| {
        assert ScopeOk(scopes, ran, i);
        if scopes[i].flagged {
          CalledAboveGrows(scopes, more, i);
        }
      } else {
        assert ScopeOk(scopes, ran, parent);
        if scopes[parent].flagged {
          CalledAboveGrows(scopes, more, parent);
        }
      }
    }
  }

  /** A scope may be rejected because `cancel` is called on it, or because its parent's rejection reaches it. */
  lemma RejectKeepsTree(scopes: seq<Scope>, ran: set<Job>, i: nat, called: bool, link: bool)
    requires TreeOk(scopes, ran) && i < |scopes|
    requires called || (link && scopes[i].parent.Some? && scopes[i].parent.value < i &&
                        scopes[scopes[i].parent.value].rejected)
    ensures var rejected := scopes[i].(flagged := true, rejected := true, called := scopes[i].called || called);
            var after := scopes[i := rejected];
            TreeOk(after, if link then ran + {Link(i)} else ran)
  {
    var after := scopes[i := scopes[i].(flagged := true, rejected := true, called := scopes[i].called || called)];
    var all := if link then ran + {Link(i)} else ran;
    forall j | 0 <= j < |after| ensures ScopeOk(after, all, j) {
      assert ScopeOk(scopes, ran, j);
      if j == i {
        if !called {
          assert ScopeOk(scopes, ran, scopes[i].parent.value);
          CalledAboveGrows(scopes, after, scopes[i].parent.value);
        }
      } else if scopes[j].flagged {
        CalledAboveGrows(scopes, after, j);
      }
    }
  }

  /** Running a callback that is not a link. */
  lemma OtherJobKeepsTree(scopes: seq<Scope>, ran: set<Job>, job: Job)
    requires TreeOk(scopes, ran) && !job.Link?
    ensures TreeOk(scopes, ran + {job})
  {
    forall i | 0 <= i < |scopes| ensures ScopeOk(scopes, ran + {job}, i) {
      assert ScopeOk(scopes, ran, i);
    }
  }

  lemma JobKeepsTree(s: State, job: Job)
    requires TreeOk(s.scopes, s.ran) && Queued(s, job)
    ensures TreeOk(Run(s, job).scopes, Run(s, job).ran)
  {
    hide TreeOk;
    match job
    case Link(child) =>
      assert s.scopes[child].parent.value < child by { TreeParent(s, child); }
      RejectKeepsTree(s.scopes, s.ran, child, false, true);
    case OnCancel(key) =>
      HandlerFrame(s.(ran := s.ran + {job}), key);
      hide HandleCancel;
      OtherJobKeepsTree(s.scopes, s.ran, job);
    case OnCancelCondition(_) => OtherJobKeepsTree(s.scopes, s.ran, job);
    case Finally(race) =>
      OtherJobKeepsTree(s.scopes, s.ran, job);
      RejectKeepsTree(s.scopes, s.ran + {job}, s.races[race].scope, true, false);
  }

  lemma TreeParent(s: State, i: nat)
    requires TreeOk(s.scopes, s.ran) && i < |s.scopes| && s.scopes[i].parent.Some?
    ensures s.scopes[i].parent.value < i
  {
    assert ScopeOk(s.scopes, s.ran, i);
  }

  lemma StepKeepsTree(s: State, e: Event)
    requires TreeOk(s.scopes, s.ran) && Enabled(s, e)
    ensures TreeOk(Next(s, e).scopes, Next(s, e).ran)
  {
    hide TreeOk, AddOperation, Run, Push;
    match e
    case NewScope(parent, cancellable) => AddKeepsTree(s.scopes, s.ran, parent, cancellable);
    case CancelScope(scope) => RejectKeepsTree(s.scopes, s.ran, scope, true, false);
    case StartOperation(kind, scope) => StartFrame(s, kind, scope);
    case StartRace(parent, eager) =>
      AddKeepsTree(s.scopes, s.ran, parent, true);
      StartFrame(AddScope(s, parent, true), Timer, |s.scopes|);
    case RunJob(job) => JobKeepsTree(s, job);
    case _ => if CommandStep(e) { CommandFrame(s, e); }
  }

  // ---- when no callback is left

  /** Cancellation reaches a scope exactly when `cancel` was called on it or above it. */
  lemma {:induction false} CancelledExactlyBelowACall(s: State, i: nat)
    requires TreeOk(s.scopes, s.ran) && Quiescent(s) && i < |s.scopes|
    ensures s.scopes[i].flagged <==> CalledAbove(s.scopes, i)
    ensures s.scopes[i].rejected <==> CalledAbove(s.scopes, i)
    ensures ConsideredCancelled(s.scopes[i]) <==> s.scopes[i].cancellable && CalledAbove(s.scopes, i)
  {
    assert ScopeOk(s.scopes, s.ran, i);
    if CalledAbove(s.scopes, i) && !s.scopes[i].called {
      CancelledExactlyBelowACall(s, s.scopes[i].parent.value);
      assert !Queued(s, Link(i));
    }
  }
}
