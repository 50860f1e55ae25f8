/** packages/worker/src/runtime.ts and connection.ts: the singleton runtime and the native objects it keeps alive. Each
    method is what runs between two suspension points, so any sequence of calls is one interleaving of creations,
    failures and closes. */
module RuntimeLifetime {
  type Native = nat

  type Creation = nat

  class Runtime {
    var pendingCreations: nat
    var backRefs: set<Native>
    /** The creations that have begun and not ended, and how often the runtime was shut down. */
    ghost var inProgress: set<Creation>
    ghost var shutdowns: nat

    constructor ()
      ensures pendingCreations == 0 && backRefs == {} && inProgress == {} && shutdowns == 0
    {
      pendingCreations, backRefs, inProgress, shutdowns := 0, {}, {}, 0;
    }

    predicate IsIdle()
      reads this
    {
      pendingCreations == 0 && backRefs == {}
    }
  }

  datatype Outcome = Done | IllegalState

  /** The process: the singleton, and what the native side knows. */
  class Process {
    var instance: Runtime?
    /** Native objects that the native side has not closed. */
    var open: set<Native>
    /** Servers whose native shutdown is done but whose reference is not dropped yet. */
    ghost var closing: set<Native>
    ghost var runtimes: set<Runtime>
    /** The runtime that created each native object there ever was, and each creation there ever was. */
    ghost var creator: map<Native, Runtime>
    ghost var begun: map<Creation, Runtime>

    ghost predicate Valid()
      reads this, runtimes
    {
      && (instance != null ==> instance in runtimes)
      && creator.Values <= runtimes && begun.Values <= runtimes
      // what a runtime counts is what is really there
      && (forall r :: r in runtimes ==> r.pendingCreations == |r.inProgress|)
      && (forall r, k :: r in runtimes && k in r.inProgress ==> k in begun && begun[k] == r)
      && (forall r, o :: r in runtimes && o in r.backRefs ==> o in creator && creator[o] == r)
      && (forall o :: o in open || o in closing ==> o in creator && o in creator[o].backRefs)
      && open !! closing
      && (forall r, o :: r in runtimes && o in r.backRefs ==> o in open || o in closing)
      // everything alive or being created belongs to the current singleton; others were shut down, once
      && (forall r :: r in runtimes && r != instance ==> r.backRefs == {} && r.inProgress == {} && r.shutdowns == 1)
      && (instance != null ==> instance.shutdowns == 0)
    }

    /** A singleton that nothing needs and that nothing will shut down until something is made and closed again. */
    ghost predicate IdleRemains()
      reads this, instance
    {
      instance != null && instance.IsIdle()
    }

    /** What `Valid` means for a caller: whatever is open or being created keeps the singleton alive, so a runtime that
        was shut down, which happens at most once, has nothing left, and closing an object reaches its creator. */
    lemma Promise()
      requires Valid()
      ensures forall o :: o in open ==>
                instance != null && o in creator && creator[o] == instance && o in instance.backRefs
      ensures forall r :: r in runtimes && r.inProgress != {} ==> r == instance && !r.IsIdle()
      ensures forall r :: r in runtimes ==> r.shutdowns <= 1 && (r.shutdowns == 1 ==> r.IsIdle() && r != instance)
    {
      forall o | o in open
        ensures instance != null && o in creator && creator[o] == instance && o in instance.backRefs
      {
        assert o in creator[o].backRefs;
        assert creator[o] in creator.Values;
      }
      forall r | r in runtimes && r != instance ensures r.IsIdle() {
        assert r.pendingCreations == |r.inProgress|;
      }
    }

    constructor ()
      ensures Valid() && instance == null && runtimes == {} && open == {} && closing == {}
      ensures creator == map[] && begun == map[]
    {
      instance, open, closing, runtimes, creator, begun := null, {}, {}, {}, map[], map[];
    }

    /** `Runtime.instance()`: the singleton, made if there is none. */
    method Instance() returns (r: Runtime)
      requires Valid()
      modifies this
      ensures Valid() && instance == r && r in runtimes
      ensures if old(instance) != null then r == old(instance) && runtimes == old(runtimes)
              else fresh(r) && runtimes == old(runtimes) + {r}
      ensures old(instance) == null ==> r.backRefs == {} && r.inProgress == {} && r.pendingCreations == 0
      ensures open == old(open) && closing == old(closing) && creator == old(creator) && begun == old(begun)
      ensures IdleRemains() <==> old(instance) == null || old(IdleRemains())
    {
      if instance != null { return instance; }
      r := new Runtime();
      instance := r;
      runtimes := runtimes + {r};
    }

    /** `shutdown`: callers have seen that `r` is idle. The precondition states the safety of every shutdown: nothing
        lives, nothing is being created, `r` is the singleton, and it has never been shut down. */
    method Shutdown(r: Runtime)
      requires r in runtimes && r.inProgress == {} && r.backRefs == {} && instance == r && r.shutdowns == 0
      modifies this`instance, r`shutdowns
      ensures instance == null && r.shutdowns == 1
    {
      instance := null;
      r.shutdowns := r.shutdowns + 1;
    }

    method ShutdownIfIdle(r: Runtime)
      requires Valid() && r == instance
      modifies this`instance, r`shutdowns
      ensures Valid() && runtimes == old(runtimes)
      ensures if r.IsIdle() then instance == null && r.shutdowns == 1 else instance == r && r.shutdowns == 0
      ensures !IdleRemains()
    {
      if r.IsIdle() { Shutdown(r); }
    }

    /** `createNative` and `createReplayWorker` up to the call of the native function. */
    method BeginCreate(k: Creation) returns (r: Runtime)
      requires Valid() && k !in begun
      modifies this, instance
      ensures Valid() && instance == r && (old(instance) != null ==> r == old(instance))
      ensures begun == old(begun)[k := r] && k in r.inProgress
      ensures old(instance) == null ==> fresh(r) && r.backRefs == {} && r.inProgress == {k}
      ensures old(instance) != null ==>
                r.backRefs == old(instance.backRefs) && r.inProgress == old(instance.inProgress) + {k}
      ensures open == old(open) && closing == old(closing) && creator == old(creator)
      ensures !IdleRemains()
    {
      r := Instance();
      r.pendingCreations := r.pendingCreations + 1;
      r.inProgress := r.inProgress + {k};
      begun := begun[k := r];
    }

    /** The native function has resolved: the reference is taken while the creation still counts as pending. */
    method ResolveCreate(k: Creation, ref: Native)
      requires Valid() && k in begun && k in begun[k].inProgress && ref !in creator
      modifies this, begun[k]
      ensures Valid() && begun == old(begun) && runtimes == old(runtimes) && instance == old(instance)
      ensures instance == begun[k] && creator == old(creator)[ref := begun[k]] && open == old(open) + {ref}
      ensures closing == old(closing) && begun[k].inProgress == old(begun[k].inProgress)
      ensures begun[k].backRefs == old(begun[k].backRefs) + {ref}
      ensures !IdleRemains()
    {
      ghost var r := begun[k];
      assert r == instance;
      instance.backRefs := instance.backRefs + {ref};
      creator := creator[ref := r];
      open := open + {ref};
    }

    /** The creation ends well. */
    method FinishCreate(k: Creation)
      requires Valid() && k in begun && k in begun[k].inProgress
      modifies begun[k]
      ensures Valid() && instance == begun[k] && k !in begun[k].inProgress
      ensures begun[k].inProgress == old(begun[k].inProgress) - {k} && begun[k].backRefs == old(begun[k].backRefs)
      ensures IdleRemains() <==> old(begun[k].inProgress) == {k} && old(begun[k].backRefs) == {}
    {
      assert begun[k] == instance;
      instance.pendingCreations := instance.pendingCreations - 1;
      instance.inProgress := instance.inProgress - {k};
    }

    /** The native function has failed: the runtime goes if nothing else holds it. */
    method FailCreate(k: Creation)
      requires Valid() && k in begun && k in begun[k].inProgress
      modifies this`instance, begun[k]
      ensures Valid() && k !in begun[k].inProgress
      ensures begun[k].inProgress == old(begun[k].inProgress) - {k} && begun[k].backRefs == old(begun[k].backRefs)
      ensures instance == if begun[k].IsIdle() then null else begun[k]
      ensures !IdleRemains()
    {
      ghost var r := begun[k];
      assert r == instance;
      instance.pendingCreations := instance.pendingCreations - 1;
      instance.inProgress := instance.inProgress - {k};
      ShutdownIfIdle(instance);
    }

    /** `closeNativeClient` and `deregisterWorker` on the runtime `r`, after the native close succeeded. */
    method DropReference(r: Runtime, ref: Native)
      requires Valid() && ref in open && creator[ref] == r
      modifies this`instance, this`open, r
      ensures Valid() && open == old(open) - {ref} && r.backRefs == old(r.backRefs) - {ref}
      ensures r.inProgress == old(r.inProgress) && instance == if r.IsIdle() then null else r
      ensures !IdleRemains()
    {
      assert ref in r.backRefs && r == instance;
      open := open - {ref};
      r.backRefs := r.backRefs - {ref};
      ShutdownIfIdle(r);
    }

    /** `NativeConnection.close`: it asks for the singleton again instead of keeping the runtime that made the client,
        and still always reaches that runtime. A second close makes a new runtime if there is none, and fails. */
    method CloseConnection(client: Native, referenceHolders: nat) returns (outcome: Outcome, ghost reached: Runtime?)
      requires Valid() && client in creator
      modifies this, instance
      ensures Valid() && creator == old(creator)
      ensures outcome == (if referenceHolders == 0 && client in old(open) then Done else IllegalState)
      ensures outcome == Done ==> reached == creator[client] && open == old(open) - {client}
      ensures outcome == Done ==> client !in creator[client].backRefs
      ensures outcome == Done ==>
                && reached.backRefs == old(creator[client].backRefs) - {client}
                && reached.inProgress == old(creator[client].inProgress)
      ensures outcome == Done ==> instance == if creator[client].IsIdle() then null else creator[client]
      ensures outcome == IllegalState ==> open == old(open) && (old(instance) != null ==> instance == old(instance))
      ensures outcome == Done ==> !IdleRemains()
      // a close that fails after it has asked for the singleton leaves an idle one behind, made for nothing
      ensures outcome == IllegalState ==>
                (IdleRemains() <==> old(IdleRemains()) || (referenceHolders == 0 && old(instance) == null))
      ensures outcome == IllegalState && referenceHolders == 0 && old(instance) == null ==> fresh(instance)
    {
      reached := null;
      if referenceHolders > 0 { return IllegalState, null; }
      var r := Instance();
      reached := r;
      if client !in open { return IllegalState, r; }
      assert client in creator[client].backRefs;
      assert r == creator[client];
      DropReference(r, client);
      outcome := Done;
    }

    /** `NativeWorker.finalizeShutdown`, on the runtime the worker remembers. */
    method DeregisterWorker(r: Runtime, worker: Native) returns (outcome: Outcome)
      requires Valid() && worker in creator && creator[worker] == r
      modifies this`instance, this`open, r
      ensures Valid() && outcome == (if worker in old(open) then Done else IllegalState)
      ensures outcome == Done ==> open == old(open) - {worker} && instance == if r.IsIdle() then null else r
      ensures outcome == IllegalState ==>
                open == old(open) && instance == old(instance) && r.backRefs == old(r.backRefs)
      ensures IdleRemains() <==> outcome == IllegalState && old(IdleRemains())
    {
      if worker !in open { return IllegalState; }
      DropReference(r, worker);
      outcome := Done;
    }

    /** `shutdownEphemeralServer`, first half: the native shutdown, which succeeds once. */
    method StopServer(server: Native) returns (outcome: Outcome)
      requires Valid() && server in creator
      modifies this`open, this`closing
      ensures Valid() && outcome == (if server in old(open) then Done else IllegalState)
      ensures outcome == Done ==> open == old(open) - {server} && closing == old(closing) + {server}
      ensures outcome == IllegalState ==> open == old(open) && closing == old(closing)
      ensures IdleRemains() <==> old(IdleRemains())
    {
      if server !in open { return IllegalState; }
      open := open - {server};
      closing := closing + {server};
      outcome := Done;
    }

    /** `shutdownEphemeralServer`, second half. */
    method ForgetServer(r: Runtime, server: Native)
      requires Valid() && server in closing && creator[server] == r
      modifies this`instance, this`closing, r
      ensures Valid() && closing == old(closing) - {server} && r.backRefs == old(r.backRefs) - {server}
      ensures instance == if r.IsIdle() then null else r
      ensures !IdleRemains()
    {
      assert server in r.backRefs && r == instance;
      closing := closing - {server};
      r.backRefs := r.backRefs - {server};
      ShutdownIfIdle(r);
    }
  }

  /** A connection is made and closed, and closed again: the second close fails, and the runtime it has made stays,
      idle. */
  method SecondClose() returns (p: Process, outcome: Outcome)
    ensures fresh(p) && p.Valid() && outcome == IllegalState && p.open == {} && p.IdleRemains()
  {
    p := new Process();
    var runtime := p.BeginCreate(0);
    p.ResolveCreate(0, 7);
    p.FinishCreate(0);
    ghost var reached;
    outcome, reached := p.CloseConnection(7, 0);
    outcome, reached := p.CloseConnection(7, 0);
  }
}
