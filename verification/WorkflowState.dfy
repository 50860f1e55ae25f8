/** The workflow runtime as one state machine: packages/workflow/src/internals.ts, workflow.ts and
    cancellation-scope.ts. A step is an activation job, a call from workflow code, or one queued promise callback, in
    any order. */
module WorkflowState {
  import opened Wrappers
  import opened WorkflowQueries

  // ---- operations and the commands that name them

  datatype Space = Timers | Activities | Signals

  datatype Kind = Timer | RemoteActivity | LocalActivity | ExternalSignal

  function SpaceOf(kind: Kind): Space {
    match kind
    case Timer => Timers
    case RemoteActivity => Activities
    case LocalActivity => Activities
    case ExternalSignal => Signals
  }

  datatype Key = Key(space: Space, seqNo: nat)

  datatype Final = CompleteWorkflow | FailWorkflow | CancelWorkflow | ContinueAsNew

  datatype Command =
    | Start(kind: Kind, key: Key) | Cancel(kind: Kind, key: Key) | Terminal(final: Final) | RespondToQuery(id: nat)

  /** What an observer of the run sees: commands issued and operations settled. */
  datatype Entry = Issued(command: Command) | Settled(key: Key)

  /** How an operation reacts when its scope is cancelled: not at all (the scope is not cancellable), by its cancel
      handler, or (its scope was cancelled already) by nothing but rejecting. */
  datatype Mode = Detached | Linked | RejectOnly

  /** `registered`: its completion is in the activator's map. `started`, `cancelled`, `settled`: what was recorded. */
  datatype Operation = Operation(
    kind: Kind, scope: nat, mode: Mode, registered: bool, started: bool, cancelled: bool, settled: bool)

  // ---- scopes, conditions

  /** `flagged` is `#cancelRequested`; `rejected` says that the promise `cancelRequested` is rejected; `called` that
      `cancel` was called on this very scope. */
  datatype Scope = Scope(parent: Option<nat>, cancellable: bool, flagged: bool, rejected: bool, called: bool)

  /** `blocked`: it is in `blockedConditions`. */
  datatype Condition = Condition(scope: nat, linked: bool, blocked: bool, settled: bool)

  /** A `condition(fn, timeout)`: its own scope, its timer, and its condition unless the scope was cancelled already. */
  datatype Race = Race(scope: nat, timer: Key, condition: Option<nat>)

  /** A callback on a promise: each is queued once and runs once. */
  datatype Job = Link(child: nat) | OnCancel(key: Key) | OnCancelCondition(condition: nat) | Finally(race: nat)

  /** The log, the commands buffered and sent, and whether the workflow is complete. */
  datatype Ledger = Ledger(log: seq<Entry>, commands: seq<Command>, sent: seq<Command>, completed: bool)

  datatype State = State(
    scopes: seq<Scope>, operations: map<Key, Operation>, timers: nat, activities: nat, signals: nat,
    conditions: map<nat, Condition>, nextCondition: nat, races: seq<Race>, ran: set<Job>,
    ledger: Ledger, queries: Queries)

  /** The commands of all activations, those of the current one included. */
  function AllCommands(s: State): seq<Command> { s.ledger.sent + s.ledger.commands }

  /** A fresh activator: the root scope, all sequence numbers at 1. */
  const INIT := State(
    [Scope(None, true, false, false, false)], map[], 1, 1, 1, map[], 1, [], {}, Ledger([], [], [], false), NO_QUERIES)

  datatype Event =
    | NewScope(parent: nat, cancellable: bool)
    | CancelScope(scope: nat)
    | StartOperation(kind: Kind, scope: nat)
    | RefuseOperation(kind: Kind)
    | Resolve(key: Key)
    | StartCondition(scope: nat, eager: bool)
    | Unblock(condition: nat)
    | StartRace(scope: nat, eager: bool)
    | RunJob(job: Job)
    | Finish(final: Final)
    | Query(delivery: Delivery)
    | CallFunction
    | Answer(id: nat)
    | AnswerThrows(id: nat)
    | Conclude

  // ---- what each step does

  /** `pushCommand`: after completion only query responses. */
  function Pushed(l: Ledger, command: Command, complete: bool): Ledger {
    if l.completed && !command.RespondToQuery? then l
    else Ledger(l.log + [Issued(command)], l.commands + [command], l.sent, l.completed || complete)
  }

  function Push(s: State, command: Command, complete: bool): State {
    s.(ledger := Pushed(s.ledger, command, complete))
  }

  function Settle(s: State, key: Key, o: Operation): State {
    s.(ledger := s.ledger.(log := s.ledger.log + [Settled(key)]),
       operations := s.operations[key := o.(settled := true)])
  }

  predicate ConsideredCancelled(s: Scope) { s.flagged && s.cancellable }

  /** The new scope inherits the flag at once; the parent's rejection reaches it by a callback. */
  function AddScope(s: State, parent: nat, cancellable: bool): State
    requires parent < |s.scopes|
  {
    s.(scopes := s.scopes + [Scope(Some(parent), cancellable, s.scopes[parent].flagged, false, false)])
  }

  function Reject(s: State, scope: nat, called: bool): State
    requires scope < |s.scopes|
  {
    var o := s.scopes[scope];
    s.(scopes := s.scopes[scope := o.(flagged := true, rejected := true, called := o.called || called)])
  }

  /** `nextSeqs`: the number the next operation of a space takes. */
  function NextSeq(s: State, space: Space): nat {
    match space
    case Timers => s.timers
    case Activities => s.activities
    case Signals => s.signals
  }

  function TakeSeq(s: State, space: Space): State {
    s.(timers := if space.Timers? then s.timers + 1 else s.timers,
       activities := if space.Activities? then s.activities + 1 else s.activities,
       signals := if space.Signals? then s.signals + 1 else s.signals)
  }

  /** The operation that a call in `scope` makes: a start command pushed after completion is dropped. */
  function NewOperation(s: State, kind: Kind, scope: nat): Operation
    requires scope < |s.scopes|
  {
    if ConsideredCancelled(s.scopes[scope]) then Operation(kind, scope, RejectOnly, false, false, false, false)
    else
      var mode := if s.scopes[scope].cancellable then Linked else Detached;
      Operation(kind, scope, mode, true, !s.ledger.completed, false, false)
  }

  /** The `NextHandler` of a timer, activity, local activity or external signal. */
  function AddOperation(s: State, kind: Kind, scope: nat): State
    requires scope < |s.scopes|
  {
    var space, o := SpaceOf(kind), NewOperation(s, kind, scope);
    var key := Key(space, NextSeq(s, space));
    var t := TakeSeq(s, space).(operations := s.operations[key := o]);
    if o.mode.RejectOnly? then t else Push(t, Start(kind, key), false)
  }

  /** `conditionInner`. */
  function AddCondition(s: State, scope: nat, eager: bool): State
    requires scope < |s.scopes|
  {
    if ConsideredCancelled(s.scopes[scope]) then s
    else s.(nextCondition := s.nextCondition + 1,
            conditions := s.conditions[s.nextCondition := Condition(scope, s.scopes[scope].cancellable, !eager, eager)])
  }

  /** `condition(fn, timeout)` with a positive timeout. */
  function AddRace(s: State, parent: nat, eager: bool): State
    requires parent < |s.scopes|
  {
    var scope, key := |s.scopes|, Key(Timers, s.timers);
    var t := AddOperation(AddScope(s, parent, true), Timer, scope);
    var u := AddCondition(t, scope, eager);
    var condition := if u.nextCondition == t.nextCondition then None else Some(t.nextCondition);
    u.(races := u.races + [Race(scope, key, condition)])
  }

  predicate RaceSettled(s: State, r: Race) {
    || (r.timer in s.operations && s.operations[r.timer].settled)
    || (r.condition.Some? && r.condition.value in s.conditions && s.conditions[r.condition.value].settled)
  }

  /** A callback is queued when the promise it waits for is rejected, or the race it follows settled. */
  predicate Queued(s: State, job: Job) {
    && job !in s.ran
    && match job
       case Link(child) =>
         child < |s.scopes| && s.scopes[child].parent.Some? && s.scopes[child].parent.value < |s.scopes| &&
         s.scopes[s.scopes[child].parent.value].rejected
       case OnCancel(key) =>
         key in s.operations && !s.operations[key].mode.Detached? && s.operations[key].scope < |s.scopes| &&
         s.scopes[s.operations[key].scope].rejected
       case OnCancelCondition(c) =>
         c in s.conditions && s.conditions[c].linked && s.conditions[c].scope < |s.scopes| &&
         s.scopes[s.conditions[c].scope].rejected
       case Finally(r) =>
         r < |s.races| && s.races[r].scope < |s.scopes| && RaceSettled(s, s.races[r])
  }

  /** The cancellation handler of an operation. */
  function HandleCancel(s: State, key: Key): State
    requires key in s.operations
  {
    var o := s.operations[key];
    if o.mode.RejectOnly? then Settle(s, key, o)
    else if !o.registered then s
    else
      var t, c := Push(s, Cancel(o.kind, key), false), o.(cancelled := !s.ledger.completed);
      if o.kind.Timer? then Settle(t, key, c.(registered := false))
      else t.(operations := t.operations[key := c])
  }

  function Run(s: State, job: Job): State
    requires Queued(s, job)
  {
    var t := s.(ran := s.ran + {job});
    match job
    case Link(child) => Reject(t, child, false)
    case OnCancel(key) => HandleCancel(t, key)
    case OnCancelCondition(c) =>
      t.(conditions := t.conditions[c := t.conditions[c].(blocked := false, settled := true)])
    case Finally(r) => Reject(t, t.races[r].scope, true)
  }

  predicate Enabled(s: State, e: Event) {
    match e
    case NewScope(parent, _) => parent < |s.scopes|
    case CancelScope(scope) => scope < |s.scopes|
    case StartOperation(_, scope) => scope < |s.scopes|
    case Resolve(_) => !s.ledger.completed
    case StartCondition(scope, _) => scope < |s.scopes|
    case Unblock(c) => c in s.conditions && s.conditions[c].blocked
    case StartRace(scope, _) => scope < |s.scopes|
    case RunJob(job) => Queued(s, job)
    case CallFunction => !s.queries.called
    case Answer(id) => id in s.queries.pending
    case AnswerThrows(id) => id in s.queries.pending
    case _ => true
  }

  function Next(s: State, e: Event): State
    requires Enabled(s, e)
  {
    match e
    case NewScope(parent, cancellable) => AddScope(s, parent, cancellable)
    case CancelScope(scope) => Reject(s, scope, true)
    case StartOperation(kind, scope) => AddOperation(s, kind, scope)
    case RefuseOperation(kind) => TakeSeq(s, SpaceOf(kind))
    case Resolve(key) =>
      if key in s.operations && s.operations[key].registered then
        Settle(s, key, s.operations[key].(registered := false))
      else s
    case StartCondition(scope, eager) => AddCondition(s, scope, eager)
    case Unblock(c) => s.(conditions := s.conditions[c := s.conditions[c].(blocked := false, settled := true)])
    case StartRace(scope, eager) => AddRace(s, scope, eager)
    case RunJob(job) => Run(s, job)
    case Finish(final) => Push(s, Terminal(final), true)
    case Query(delivery) => s.(queries := Delivered(s.queries, delivery))
    case CallFunction => s.(queries := Called(s.queries))
    case Answer(id) => Push(s.(queries := Answered(s.queries, id)), RespondToQuery(id), false)
    case AnswerThrows(id) => s.(queries := AnswerThrew(s.queries, id))
    case Conclude => s.(ledger := s.ledger.(sent := s.ledger.sent + s.ledger.commands, commands := []))
  }

  predicate Legal(s: State, run: seq<Event>)
    decreases |run|
  {
    run == [] || (Enabled(s, run[0]) && Legal(Next(s, run[0]), run[1..]))
  }

  function After(s: State, run: seq<Event>): State
    requires Legal(s, run)
    decreases |run|
  {
    if run == [] then s else After(Next(s, run[0]), run[1..])
  }

  /** No callback is queued: neither a rejection nor the end of a race waits to be seen, and no query for its answer. */
  ghost predicate Quiescent(s: State) { (forall job :: !Queued(s, job)) && s.queries.pending == multiset{} }
}
