/** The commands of a whole run, activation after activation, and the answers to queries among them. */
module WorkflowCommands {
  import opened WorkflowQueries
  import opened WorkflowState
  import opened WorkflowOperations

  /** The commands that were issued, in order. */
  function IssuedIn(log: seq<Entry>): seq<Command> {
    if log == [] then []
    else
      var before, last := IssuedIn(log[..|log| - 1]), log[|log| - 1];
      if last.Issued? then before + [last.command] else before
  }

  function CommandNames(c: Command, key: Key): bool { !c.Terminal? && !c.RespondToQuery? && c.key == key }

  /** The commands that name one sequence number. */
  function Naming(commands: seq<Command>, key: Key): seq<Command> {
    if commands == [] then []
    else
      var before, last := Naming(commands[..|commands| - 1], key), commands[|commands| - 1];
      if CommandNames(last, key) then before + [last] else before
  }

  function Responses(commands: seq<Command>, id: nat): nat {
    if commands == [] then 0
    else
      var before, last := Responses(commands[..|commands| - 1], id), commands[|commands| - 1];
      if last == RespondToQuery(id) then before + 1 else before
  }

  lemma IssuedInMore(log: seq<Entry>, e: Entry)
    ensures IssuedIn(log + [e]) == if e.Issued? then IssuedIn(log) + [e.command] else IssuedIn(log)
  {
    assert (log + [e])[..|log|] == log;
  }

  lemma NamingMore(commands: seq<Command>, c: Command, key: Key)
    ensures Naming(commands + [c], key) ==
            if CommandNames(c, key) then Naming(commands, key) + [c] else Naming(commands, key)
  {
    assert (commands + [c])[..|commands|] == commands;
  }

  lemma ResponsesMore(commands: seq<Command>, c: Command, id: nat)
    ensures Responses(commands + [c], id) == Responses(commands, id) + if c == RespondToQuery(id) then 1 else 0
  {
    assert (commands + [c])[..|commands|] == commands;
  }

  /** The commands naming a number are the commands among its entries. */
  lemma {:induction false} NamingIsIssued(log: seq<Entry>, key: Key)
    ensures Naming(IssuedIn(log), key) == IssuedIn(Entries(log, key))
  {
    if log != [] {
      var before, last := log[..|log| - 1], log[|log| - 1];
      NamingIsIssued(before, key);
      if last.Issued? {
        NamingMore(IssuedIn(before), last.command, key);
      }
      IssuedInMore(Entries(before, key), last);
    }
  }

  // ---- the invariant

  /** Only query responses follow a terminal command, so there is at most one. */
  ghost predicate Orderly(commands: seq<Command>, completed: bool) {
    && (forall i, j :: 0 <= i < j < |commands| && commands[i].Terminal? ==> commands[j].RespondToQuery?)
    && (completed <==> exists i :: 0 <= i < |commands| && commands[i].Terminal?)
  }

  ghost predicate LedgerOk(l: Ledger, q: Queries) {
    var all := l.sent + l.commands;
    && all == IssuedIn(l.log) && Orderly(all, l.completed)
    && (q.called ==> q.buffered == []) && (forall id: nat :: Responses(all, id) == q.answered[id])
  }

  ghost predicate CommandsInv(s: State) { LedgerOk(s.ledger, s.queries) }

  lemma OrderlyMore(commands: seq<Command>, c: Command, completed: bool)
    requires Orderly(commands, completed) && (completed ==> c.RespondToQuery?)
    ensures Orderly(commands + [c], completed || c.Terminal?)
  {
    var more := commands + [c];
    if completed {
      var i :| 0 <= i < |commands| && commands[i].Terminal?;
      assert more[i].Terminal?;
    } else if c.Terminal? {
      assert more[|commands|].Terminal?;
    }
  }

  /** `pushCommand`, of any command but an answer. */
  lemma PushKeeps(l: Ledger, q: Queries, c: Command)
    requires LedgerOk(l, q) && !c.RespondToQuery?
    ensures LedgerOk(Pushed(l, c, c.Terminal?), q)
  {
    if !l.completed {
      var all, l' := l.sent + l.commands, Pushed(l, c, c.Terminal?);
      assert l'.sent + l'.commands == all + [c];
      IssuedInMore(l.log, Issued(c));
      OrderlyMore(all, c, l.completed);
      forall id: nat ensures Responses(all + [c], id) == q.answered[id] {
        ResponsesMore(all, c, id);
      }
    }
  }

  lemma AnswerKeeps(l: Ledger, q: Queries, id: nat)
    requires LedgerOk(l, q)
    ensures LedgerOk(Pushed(l, RespondToQuery(id), false), Answered(q, id))
  {
    var c := RespondToQuery(id);
    var all, l', q' := l.sent + l.commands, Pushed(l, c, false), Answered(q, id);
    assert l'.sent + l'.commands == all + [c];
    IssuedInMore(l.log, Issued(c));
    OrderlyMore(all, c, l.completed);
    forall i: nat ensures Responses(all + [c], i) == q'.answered[i] {
      ResponsesMore(all, c, i);
    }
  }

  lemma SettleKeeps(l: Ledger, q: Queries, key: Key)
    requires LedgerOk(l, q)
    ensures LedgerOk(l.(log := l.log + [Settled(key)]), q)
  {
    IssuedInMore(l.log, Settled(key));
  }

  lemma ConcludeKeeps(l: Ledger, q: Queries)
    requires LedgerOk(l, q)
    ensures LedgerOk(l.(sent := l.sent + l.commands, commands := []), q)
  {
    var l' := l.(sent := l.sent + l.commands, commands := []);
    assert l'.sent + l'.commands == l.sent + l.commands;
  }

  lemma DeliveryKeeps(l: Ledger, q: Queries, d: Delivery)
    requires LedgerOk(l, q)
    ensures LedgerOk(l, Delivered(q, d))
  {
  }

  lemma CallKeeps(l: Ledger, q: Queries)
    requires LedgerOk(l, q)
    ensures LedgerOk(l, Called(q))
  {
  }

  lemma ThrowKeeps(l: Ledger, q: Queries, id: nat)
    requires LedgerOk(l, q)
    ensures LedgerOk(l, AnswerThrew(q, id))
  {
  }

  // ---- every step keeps it

  lemma HandlerKeepsCommands(s: State, key: Key)
    requires CommandsInv(s) && key in s.operations
    ensures CommandsInv(HandleCancel(s, key))
  {
    hide LedgerOk, Pushed;
    var o := s.operations[key];
    var cancel := Cancel(o.kind, key);
    PushKeeps(s.ledger, s.queries, cancel);
    SettleKeeps(s.ledger, s.queries, key);
    SettleKeeps(Pushed(s.ledger, cancel, false), s.queries, key);
  }

  lemma StartKeepsCommands(s: State, kind: Kind, scope: nat)
    requires CommandsInv(s) && scope < |s.scopes|
    ensures CommandsInv(AddOperation(s, kind, scope))
  {
    hide LedgerOk, Pushed;
    PushKeeps(s.ledger, s.queries, Start(kind, Key(SpaceOf(kind), NextSeq(s, SpaceOf(kind)))));
  }

  lemma RaceKeepsCommands(s: State, parent: nat, eager: bool)
    requires CommandsInv(s) && parent < |s.scopes|
    ensures CommandsInv(AddRace(s, parent, eager))
  {
    hide LedgerOk, AddOperation;
    var t := AddScope(s, parent, true);
    StartFrame(t, Timer, |s.scopes|);
    StartKeepsCommands(t, Timer, |s.scopes|);
  }

  lemma JobKeepsCommands(s: State, job: Job)
    requires CommandsInv(s) && Queued(s, job)
    ensures CommandsInv(Run(s, job))
  {
    hide LedgerOk, HandleCancel;
    if job.OnCancel? {
      HandlerKeepsCommands(s.(ran := s.ran + {job}), job.key);
    }
  }

  lemma ResolveKeepsCommands(s: State, key: Key)
    requires CommandsInv(s) && Enabled(s, Resolve(key))
    ensures CommandsInv(Next(s, Resolve(key)))
  {
    hide LedgerOk;
    SettleKeeps(s.ledger, s.queries, key);
  }

  lemma CommandStepKeepsCommands(s: State, e: Event)
    requires CommandsInv(s) && Enabled(s, e) && CommandStep(e)
    ensures CommandsInv(Next(s, e))
  {
    hide LedgerOk, Pushed, Delivered, Called, Answered, AnswerThrew, Run, AddOperation, AddRace;
    match e
    case Finish(final) => PushKeeps(s.ledger, s.queries, Terminal(final));
    case Answer(id) => AnswerKeeps(s.ledger, s.queries, id);
    case Conclude => ConcludeKeeps(s.ledger, s.queries);
    case Query(d) => DeliveryKeeps(s.ledger, s.queries, d);
    case CallFunction => CallKeeps(s.ledger, s.queries);
    case AnswerThrows(id) => ThrowKeeps(s.ledger, s.queries, id);
    case _ =>
  }

  lemma StepKeepsCommands(s: State, e: Event)
    requires CommandsInv(s) && Enabled(s, e)
    ensures CommandsInv(Next(s, e))
  {
    hide LedgerOk, AddOperation, AddRace, Run, Settle;
    if CommandStep(e) {
      CommandStepKeepsCommands(s, e);
    } else if e.StartOperation? {
      StartKeepsCommands(s, e.kind, e.scope);
    } else if e.StartRace? {
      RaceKeepsCommands(s, e.scope, e.eager);
    } else if e.RunJob? {
      JobKeepsCommands(s, e.job);
    } else if e.Resolve? {
      ResolveKeepsCommands(s, e.key);
    }
  }
}
