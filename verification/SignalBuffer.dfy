/** Signals, their handlers and the buffer of undeliverable ones (`signalWorkflow`, `dispatchBufferedSignals`,
    `setHandler` and `setDefaultSignalHandler`). A handler runs at once when a signal is handed over, and may itself
    set handlers. */
module SignalBuffer {
  import opened Sequences
  import opened Wrappers

  /** `arrival` numbers the signals in the order in which the server accepted them. */
  datatype Signal = Signal(arrival: nat, name: string)

  /** What the synchronous part of a handler may do to the handlers. */
  datatype Call = SetHandler(name: string, handler: Option<nat>) | SetDefault(handler: Option<nat>)

  /** The signals of one name, in order. */
  function Of(signals: seq<Signal>, name: string): seq<Signal> {
    if signals == [] then []
    else
      var before, last := Of(signals[..|signals| - 1], name), signals[|signals| - 1];
      if last.name == name then before + [last] else before
  }

  lemma OfMore(signals: seq<Signal>, s: Signal, name: string)
    ensures Of(signals + [s], name) == if s.name == name then Of(signals, name) + [s] else Of(signals, name)
  {
    assert (signals + [s])[..|signals|] == signals;
  }

  lemma {:induction false} OfConcat(a: seq<Signal>, b: seq<Signal>, name: string)
    ensures Of(a + b, name) == Of(a, name) + Of(b, name)
  {
    if b == [] {
      assert a + b == a;
    } else {
      hide Of;
      var before, last := b[..|b| - 1], b[|b| - 1];
      OfConcat(a, before, name);
      assert a + b == (a + before) + [last] && b == before + [last];
      OfMore(a + before, last, name);
      OfMore(before, last, name);
      Associative(Of(a, name), Of(before, name), [last]);
    }
  }

  lemma {:induction false} OfNone(signals: seq<Signal>, name: string)
    requires forall s :: s in signals ==> s.name != name
    ensures Of(signals, name) == []
  {
    if signals != [] {
      OfNone(signals[..|signals| - 1], name);
    }
  }

  lemma {:induction false} OfCounts(signals: seq<Signal>, s: Signal)
    ensures multiset(signals)[s] == multiset(Of(signals, s.name))[s]
  {
    if signals != [] {
      var before, last := signals[..|signals| - 1], signals[|signals| - 1];
      OfCounts(before, s);
      assert signals == before + [last];
    }
  }

  lemma OfCons(s: Signal, signals: seq<Signal>, name: string)
    ensures Of([s] + signals, name) == if s.name == name then [s] + Of(signals, name) else Of(signals, name)
  {
    OfConcat([s], signals, name);
    OfMore([], s, name);
    assert [] + [s] == [s];
  }

  // ---- each name in order

  /** The signals of each name handed over so far, and then those queued, are those accepted. */
  ghost predicate InOrder(handed: seq<Signal>, queue: seq<Signal>, accepted: seq<Signal>) {
    forall name: string :: Of(handed, name) + Of(queue, name) == Of(accepted, name)
  }

  lemma HandingOver(handed: seq<Signal>, signal: Signal, queue: seq<Signal>, accepted: seq<Signal>)
    requires InOrder(handed, [signal] + queue, accepted)
    ensures InOrder(handed + [signal], queue, accepted)
  {
    forall name: string ensures Of(handed + [signal], name) + Of(queue, name) == Of(accepted, name) {
      assert Of(handed, name) + Of([signal] + queue, name) == Of(accepted, name);
      OfMore(handed, signal, name);
      OfCons(signal, queue, name);
      hide Of;
      if signal.name == name {
        Associative(Of(handed, name), [signal], Of(queue, name));
      }
    }
  }

  lemma Buffering(handed: seq<Signal>, signal: Signal, queue: seq<Signal>, accepted: seq<Signal>)
    requires InOrder(handed, queue, accepted)
    ensures InOrder(handed, queue + [signal], accepted + [signal])
  {
    forall name: string ensures Of(handed, name) + Of(queue + [signal], name) == Of(accepted + [signal], name) {
      assert Of(handed, name) + Of(queue, name) == Of(accepted, name);
      OfMore(queue, signal, name);
      OfMore(accepted, signal, name);
      hide Of;
      Associative(Of(handed, name), Of(queue, name), [signal]);
    }
  }

  /** A signal whose name is not queued may overtake the queue. */
  lemma Overtaking(handed: seq<Signal>, signal: Signal, queue: seq<Signal>, accepted: seq<Signal>)
    requires InOrder(handed, queue + [signal], accepted) && forall s :: s in queue ==> s.name != signal.name
    ensures InOrder(handed, [signal] + queue, accepted)
  {
    forall name: string ensures Of(handed, name) + Of([signal] + queue, name) == Of(accepted, name) {
      assert Of(handed, name) + Of(queue + [signal], name) == Of(accepted, name);
      OfMore(queue, signal, name);
      OfCons(signal, queue, name);
      if signal.name == name {
        OfNone(queue, name);
      }
    }
  }

  lemma OfTaken(before: seq<Signal>, s: Signal, after: seq<Signal>, name: string)
    requires forall t :: t in before ==> t.name != s.name
    ensures Of([s] + (before + after), name) == Of(before + ([s] + after), name)
  {
    OfConcat(before, [s] + after, name);
    OfCons(s, after, name);
    OfConcat(before, after, name);
    OfCons(s, before + after, name);
    if s.name == name {
      OfNone(before, name);
      hide Of;
      var rest := Of(after, name);
      assert [] + rest == rest && [] + ([s] + rest) == [s] + rest;
    }
  }

  /** Taking the first signal that has a handler takes the first of its name. */
  lemma TakingFirst(handed: seq<Signal>, buffer: seq<Signal>, k: nat, accepted: seq<Signal>)
    requires InOrder(handed, buffer, accepted)
    requires k < |buffer| && forall i :: 0 <= i < k ==> buffer[i].name != buffer[k].name
    ensures InOrder(handed, [buffer[k]] + (buffer[..k] + buffer[k + 1..]), accepted)
  {
    var s, before, after := buffer[k], buffer[..k], buffer[k + 1..];
    assert buffer == before + ([s] + after);
    hide Of;
    forall name: string ensures Of(handed, name) + Of([s] + (before + after), name) == Of(accepted, name) {
      OfTaken(before, s, after, name);
      assert Of(handed, name) + Of(buffer, name) == Of(accepted, name);
    }
  }

  /** If the handed over and the buffered signals of each name are, in that order, the accepted ones, then every signal
      is buffered or was handed over, exactly once. */
  lemma ExactlyOnce(handed: seq<Signal>, buffered: seq<Signal>, accepted: seq<Signal>)
    requires InOrder(handed, buffered, accepted)
    ensures multiset(handed) + multiset(buffered) == multiset(accepted)
  {
    forall s: Signal ensures (multiset(handed) + multiset(buffered))[s] == multiset(accepted)[s] {
      OfCounts(handed, s);
      OfCounts(buffered, s);
      OfCounts(accepted, s);
      assert Of(handed, s.name) + Of(buffered, s.name) == Of(accepted, s.name);
    }
  }

  predicate FirstOf(signals: seq<Signal>, k: nat, name: string)
    requires k < |signals|
  {
    signals[k].name == name && forall i :: 0 <= i < k ==> signals[i].name != name
  }

  // ---- arrival order

  predicate Ascending(signals: seq<Signal>) {
    forall i, j :: 0 <= i < j < |signals| ==> signals[i].arrival < signals[j].arrival
  }

  /** Of the signals numbered so far, those handed over under a default handler came before all that are buffered. */
  predicate Sorted(buffer: seq<Signal>, underDefault: seq<Signal>, bound: nat) {
    && Ascending(buffer) && (forall t :: t in buffer ==> t.arrival < bound)
    && Ascending(underDefault) && (forall s :: s in underDefault ==> s.arrival < bound)
    && (forall s, t :: s in underDefault && t in buffer ==> s.arrival < t.arrival)
  }

  /** The next signal to be handed over, if a default handler is set. */
  predicate Between(signal: Signal, buffer: seq<Signal>, underDefault: seq<Signal>) {
    && (forall s :: s in underDefault ==> s.arrival < signal.arrival)
    && (forall t :: t in buffer ==> signal.arrival < t.arrival)
  }

  lemma TakingKeepsSorted(buffer: seq<Signal>, underDefault: seq<Signal>, bound: nat, k: nat)
    requires Sorted(buffer, underDefault, bound) && k < |buffer|
    ensures Sorted(buffer[..k] + buffer[k + 1..], underDefault, bound) && buffer[k].arrival < bound
    ensures k == 0 ==> Between(buffer[0], buffer[..k] + buffer[k + 1..], underDefault)
  {
    var rest := buffer[..k] + buffer[k + 1..];
    forall i | 0 <= i < |rest| ensures rest[i] == buffer[if i < k then i else i + 1] {
    }
  }

  lemma DefaultKeepsSorted(signal: Signal, buffer: seq<Signal>, underDefault: seq<Signal>, bound: nat)
    requires Sorted(buffer, underDefault, bound) && Between(signal, buffer, underDefault) && signal.arrival < bound
    ensures Sorted(buffer, underDefault + [signal], bound)
  {
  }

  lemma BufferingKeepsSorted(signal: Signal, buffer: seq<Signal>, underDefault: seq<Signal>, bound: nat)
    requires Sorted(buffer, underDefault, bound) && signal.arrival < bound
    requires forall s :: s in underDefault || s in buffer ==> s.arrival < signal.arrival
    ensures Sorted(buffer + [signal], underDefault, bound)
  {
  }

  // ---- which calls were made, and by whom

  /** A call that sets or unsets a handler: made by the handler of a signal, by its place among those handed over, or
      from elsewhere. */
  datatype Made = Made(call: Call, caller: Option<nat>)

  function HandlersWith(handlers: map<string, nat>, call: Call): map<string, nat> {
    if call.SetDefault? then handlers
    else if call.handler.Some? then handlers[call.name := call.handler.value]
    else handlers - {call.name}
  }

  /** The handlers that some calls leave. */
  function HandlersAfter(made: seq<Made>): map<string, nat> {
    if made == [] then map[] else HandlersWith(HandlersAfter(made[..|made| - 1]), made[|made| - 1].call)
  }

  function DefaultAfter(made: seq<Made>): Option<nat> {
    if made == [] then None
    else if made[|made| - 1].call.SetDefault? then made[|made| - 1].call.handler
    else DefaultAfter(made[..|made| - 1])
  }

  /** The handler that serves a name then: its own, or else the default one. */
  function Serving(made: seq<Made>, name: string): Option<nat> {
    if name in HandlersAfter(made) then Some(HandlersAfter(made)[name]) else DefaultAfter(made)
  }

  /** The calls made by the handler of signal `i`, in order. */
  function CallsOf(made: seq<Made>, i: nat): seq<Call> {
    if made == [] then []
    else
      var calls, last := CallsOf(made[..|made| - 1], i), made[|made| - 1];
      if last.caller == Some(i) then calls + [last.call] else calls
  }

  function AllBy(calls: seq<Call>, i: nat): seq<Made> {
    seq(|calls|, k requires 0 <= k < |calls| => Made(calls[k], Some(i)))
  }

  lemma MadeMore(made: seq<Made>, m: Made)
    ensures HandlersAfter(made + [m]) == HandlersWith(HandlersAfter(made), m.call)
    ensures DefaultAfter(made + [m]) == if m.call.SetDefault? then m.call.handler else DefaultAfter(made)
    ensures forall i: nat :: CallsOf(made + [m], i) ==
                             if m.caller == Some(i) then CallsOf(made, i) + [m.call] else CallsOf(made, i)
  {
    assert (made + [m])[..|made|] == made;
  }

  lemma NoneBy(made: seq<Made>, i: nat)
    ensures made + AllBy([], i) == made
  {
  }

  lemma AllByMore(made: seq<Made>, calls: seq<Call>, k: nat, i: nat)
    requires k < |calls|
    ensures made + AllBy(calls[..k + 1], i) == made + AllBy(calls[..k], i) + [Made(calls[k], Some(i))]
  {
    assert AllBy(calls[..k + 1], i) == AllBy(calls[..k], i) + [Made(calls[k], Some(i))];
  }

  lemma {:induction false} NoCallsOf(made: seq<Made>, i: nat)
    requires forall m :: m in made ==> m.caller != Some(i)
    ensures CallsOf(made, i) == []
  {
    if made != [] {
      NoCallsOf(made[..|made| - 1], i);
    }
  }

  /** What led to the handlers and to what was handed over. */
  datatype Past = Past(made: seq<Made>, handed: seq<Signal>, servedBy: seq<nat>, madeBefore: seq<nat>)

  /** Every signal was served by the handler that was set for it at that moment, and each handler that is not running
      has made all its calls, in order, and no others. */
  ghost predicate Explained(handler: (nat, Signal) -> seq<Call>, past: Past, running: set<nat>) {
    && |past.servedBy| == |past.madeBefore| == |past.handed|
    && (forall i :: 0 <= i < |past.handed| ==>
         past.madeBefore[i] <= |past.made| &&
         Serving(past.made[..past.madeBefore[i]], past.handed[i].name) == Some(past.servedBy[i]))
    && (forall m :: m in past.made && m.caller.Some? ==> m.caller.value < |past.handed|)
    && (forall i :: i in running ==> i < |past.handed|)
    && (forall i :: 0 <= i < |past.handed| && i !in running ==>
         CallsOf(past.made, i) == handler(past.servedBy[i], past.handed[i]))
  }

  function WithCall(past: Past, m: Made): Past { past.(made := past.made + [m]) }

  function WithSignal(past: Past, signal: Signal, h: nat): Past {
    Past(past.made, past.handed + [signal], past.servedBy + [h], past.madeBefore + [|past.made|])
  }

  /** What is past stays. */
  predicate Since(a: Past, b: Past) { a.made <= b.made && a.handed <= b.handed && a.servedBy <= b.servedBy }

  lemma CallKeeps(handler: (nat, Signal) -> seq<Call>, past: Past, running: set<nat>, m: Made)
    requires Explained(handler, past, running) && (m.caller.Some? ==> m.caller.value in running)
    ensures Explained(handler, WithCall(past, m), running)
  {
    MadeMore(past.made, m);
    hide Serving, CallsOf;
    assert forall i :: 0 <= i < |past.handed| ==>
      (past.made + [m])[..past.madeBefore[i]] == past.made[..past.madeBefore[i]];
  }

  lemma SignalKeeps(handler: (nat, Signal) -> seq<Call>, past: Past, running: set<nat>, signal: Signal, h: nat)
    requires Explained(handler, past, running) && Serving(past.made, signal.name) == Some(h)
    ensures var k := |past.handed|;
            k !in running && CallsOf(past.made, k) == [] &&
            Explained(handler, WithSignal(past, signal, h), running + {k})
  {
    NoCallsOf(past.made, |past.handed|);
    hide Serving, CallsOf;
    assert past.made[..|past.made|] == past.made;
  }

  lemma HandlerEnds(handler: (nat, Signal) -> seq<Call>, past: Past, running: set<nat>, k: nat)
    requires Explained(handler, past, running) && k < |past.handed|
    requires CallsOf(past.made, k) == handler(past.servedBy[k], past.handed[k])
    ensures Explained(handler, past, running - {k})
  {
  }

  /** The handlers that were running made no call of their own between two moments. */
  ghost predicate SameCalls(running: set<nat>, before: seq<Made>, after: seq<Made>) {
    forall i :: i in running ==> CallsOf(after, i) == CallsOf(before, i)
  }

  // ---- what was handed over under a default handler

  predicate ByDefault(made: seq<Made>, before: nat) { before <= |made| && DefaultAfter(made[..before]).Some? }

  /** The signals that were handed over while a default handler was set. */
  function UnderDefault(made: seq<Made>, handed: seq<Signal>, madeBefore: seq<nat>): seq<Signal>
    requires |handed| == |madeBefore|
  {
    if handed == [] then []
    else
      var n := |handed| - 1;
      var before := UnderDefault(made, handed[..n], madeBefore[..n]);
      if ByDefault(made, madeBefore[n]) then before + [handed[n]] else before
  }

  lemma {:induction false} UnderDefaultWithCall(made: seq<Made>, handed: seq<Signal>, madeBefore: seq<nat>, m: Made)
    requires |handed| == |madeBefore| && forall i :: 0 <= i < |madeBefore| ==> madeBefore[i] <= |made|
    ensures UnderDefault(made + [m], handed, madeBefore) == UnderDefault(made, handed, madeBefore)
  {
    if handed != [] {
      var n := |handed| - 1;
      UnderDefaultWithCall(made, handed[..n], madeBefore[..n], m);
      assert (made + [m])[..madeBefore[n]] == made[..madeBefore[n]];
    }
  }

  lemma UnderDefaultWithSignal(made: seq<Made>, handed: seq<Signal>, madeBefore: seq<nat>, signal: Signal)
    requires |handed| == |madeBefore|
    ensures UnderDefault(made, handed + [signal], madeBefore + [|made|]) ==
            UnderDefault(made, handed, madeBefore) + if DefaultAfter(made).Some? then [signal] else []
  {
    assert (handed + [signal])[..|handed|] == handed && (madeBefore + [|made|])[..|handed|] == madeBefore;
    assert made[..|made|] == made;
  }

  lemma {:induction false} InUnderDefault(made: seq<Made>, handed: seq<Signal>, madeBefore: seq<nat>, i: nat)
    requires |handed| == |madeBefore| && i < |handed| && ByDefault(made, madeBefore[i])
    ensures handed[i] in UnderDefault(made, handed, madeBefore)
  {
    var n := |handed| - 1;
    if i < n {
      InUnderDefault(made, handed[..n], madeBefore[..n], i);
    }
  }

  lemma {:induction false} AscendingPairs(made: seq<Made>, handed: seq<Signal>, madeBefore: seq<nat>, i: nat, j: nat)
    requires |handed| == |madeBefore| && i < j < |handed| && Ascending(UnderDefault(made, handed, madeBefore))
    requires ByDefault(made, madeBefore[i]) && ByDefault(made, madeBefore[j])
    ensures handed[i].arrival < handed[j].arrival
  {
    var n := |handed| - 1;
    var before, all := UnderDefault(made, handed[..n], madeBefore[..n]), UnderDefault(made, handed, madeBefore);
    assert before == all[..|before|];
    if j < n {
      AscendingPairs(made, handed[..n], madeBefore[..n], i, j);
    } else {
      InUnderDefault(made, handed[..n], madeBefore[..n], i);
      var k :| 0 <= k < |before| && before[k] == handed[i];
      assert all[k] == handed[i] && all[|before|] == handed[j];
    }
  }

  // ---- the dispatcher

  class SignalDispatcher {
    /** What the handler with a number calls before it first waits, when it gets a signal. */
    const handler: (nat, Signal) -> seq<Call>
    var signalHandlers: map<string, nat>
    var defaultSignalHandler: Option<nat>
    var bufferedSignals: seq<Signal>

    ghost var accepted: seq<Signal>
    /** The signals handed over, the handler that each was handed to, and the calls made. */
    ghost var past: Past
    /** The signals whose handlers have not finished their synchronous part. */
    ghost var running: set<nat>

    constructor (handler: (nat, Signal) -> seq<Call>)
      ensures this.handler == handler && Valid() && Settled() && accepted == [] && running == {}
      ensures past == Past([], [], [], [])
    {
      this.handler := handler;
      signalHandlers, defaultSignalHandler, bufferedSignals := map[], None, [];
      accepted, past, running := [], Past([], [], [], []), {};
    }

    predicate Deliverable(name: string)
      reads this
    {
      name in signalHandlers || defaultSignalHandler.Some?
    }

    /** No buffered signal could be handed over. */
    ghost predicate Settled()
      reads this
    {
      forall s :: s in bufferedSignals ==> !Deliverable(s.name)
    }

    ghost predicate Valid()
      reads this
    {
      Known() && InOrder(past.handed, bufferedSignals, accepted) && Sorted(bufferedSignals, Defaulted(), |accepted|)
    }

    /** The handlers are those that the calls so far have set. */
    ghost predicate Known()
      reads this
    {
      && Explained(handler, past, running)
      && |past.handed| == |past.servedBy| == |past.madeBefore|
      && (forall i :: 0 <= i < |past.madeBefore| ==> past.madeBefore[i] <= |past.made|)
      && signalHandlers == HandlersAfter(past.made) && defaultSignalHandler == DefaultAfter(past.made)
    }

    /** The signals that were handed over while a default handler was set. */
    ghost function Defaulted(): seq<Signal>
      requires |past.handed| == |past.madeBefore|
      reads this
    {
      UnderDefault(past.made, past.handed, past.madeBefore)
    }

    /** The signal at `k` is the first of the buffer that can be handed over. */
    ghost predicate IsNext(k: nat)
      reads this
    {
      && k < |bufferedSignals| && Deliverable(bufferedSignals[k].name)
      && forall i :: 0 <= i < k ==> !Deliverable(bufferedSignals[i].name)
    }

    /** A handler of its own comes before the default one. */
    function HandlerOf(name: string): nat
      requires Deliverable(name)
      reads this
    {
      if name in signalHandlers then signalHandlers[name] else defaultSignalHandler.value
    }

    /** The next signal arrives. */
    method Receive(signal: Signal)
      requires Valid() && Settled() && signal.arrival == |accepted|
      modifies this
      ensures Valid() && Settled() && running == old(running)
      ensures accepted == old(accepted) + [signal]
      ensures if old(Deliverable(signal.name))
              then Since(WithSignal(old(past), signal, old(HandlerOf(signal.name))), past)
              else past == old(past) && bufferedSignals == old(bufferedSignals) + [signal]
    {
      hide InOrder, Sorted, Explained;
      Buffering(past.handed, signal, bufferedSignals, accepted);
      Arriving(signal);
      if Deliverable(signal.name) {
        Overtaking(past.handed, signal, bufferedSignals, accepted + [signal]);
      }
      accepted := accepted + [signal];
      SignalWorkflow(signal);
    }

    /** An accepted signal that is in neither place: the next one to be handed over, or the last one to be buffered. */
    ghost predicate Ready(signal: Signal)
      reads this
    {
      && Known() && Sorted(bufferedSignals, Defaulted(), |accepted|) && signal.arrival < |accepted|
      && if Deliverable(signal.name) then
           && InOrder(past.handed, [signal] + bufferedSignals, accepted)
           && (defaultSignalHandler.Some? ==> Between(signal, bufferedSignals, Defaulted()))
         else
           && InOrder(past.handed, bufferedSignals + [signal], accepted)
           && forall s :: s in Defaulted() || s in bufferedSignals ==> s.arrival < signal.arrival
    }

    method SignalWorkflow(signal: Signal)
      requires Ready(signal)
      modifies this
      ensures Valid() && accepted == old(accepted) && (old(Settled()) ==> Settled())
      ensures running == old(running) && SameCalls(running, old(past.made), past.made)
      ensures if old(Deliverable(signal.name))
              then |bufferedSignals| <= |old(bufferedSignals)| &&
                   Since(WithSignal(old(past), signal, old(HandlerOf(signal.name))), past)
              else past == old(past) && bufferedSignals == old(bufferedSignals) + [signal]
      // with nothing in the buffer, the handler's calls are all that follows
      ensures old(Deliverable(signal.name)) && old(bufferedSignals) == [] ==>
                && past.handed == old(past.handed) + [signal] && bufferedSignals == []
                && past.made == old(past.made) +
                                AllBy(handler(old(HandlerOf(signal.name)), signal), |old(past.handed)|)
      decreases |bufferedSignals|, 3, 0
    {
      hide Ready, Valid, CallsOf;
      if signal.name !in signalHandlers && defaultSignalHandler.None? {
        BufferSignal(signal);
        return;
      }
      var h := if signal.name in signalHandlers then signalHandlers[signal.name] else defaultSignalHandler.value;
      ghost var k := |past.handed|;
      BeginHandler(signal, h);
      RunHandler(handler(h, signal), k);
      EndHandler(signal, h, k);
    }

    method BufferSignal(signal: Signal)
      requires Ready(signal) && !Deliverable(signal.name)
      modifies `bufferedSignals
      ensures Valid() && bufferedSignals == old(bufferedSignals) + [signal]
    {
      hide InOrder, Sorted, Explained, HandlersAfter, DefaultAfter;
      BufferingKeepsSorted(signal, bufferedSignals, Defaulted(), |accepted|);
      bufferedSignals := bufferedSignals + [signal];
    }

    ghost method BeginHandler(signal: Signal, h: nat)
      requires Ready(signal) && Deliverable(signal.name) && h == HandlerOf(signal.name)
      modifies `past, `running
      ensures Valid() && past == WithSignal(old(past), signal, h)
      ensures var k := |old(past.handed)|;
              && k !in old(running) && running == old(running) + {k} && CallsOf(past.made, k) == []
              && k < |past.handed| == |past.servedBy| && past.handed[k] == signal && past.servedBy[k] == h
    {
      hide InOrder, Sorted, Between, Explained, CallsOf, HandlersAfter, DefaultAfter, UnderDefault;
      HandingOver(past.handed, signal, bufferedSignals, accepted);
      SignalKeeps(handler, past, running, signal, h);
      UnderDefaultWithSignal(past.made, past.handed, past.madeBefore, signal);
      var before := Defaulted();
      if defaultSignalHandler.Some? {
        DefaultKeepsSorted(signal, bufferedSignals, before, |accepted|);
      } else {
        assert before + [] == before;
      }
      past, running := WithSignal(past, signal, h), running + {|past.handed|};
    }

    ghost method EndHandler(signal: Signal, h: nat, k: nat)
      requires Valid() && k < |past.handed| && k < |past.servedBy|
      requires past.handed[k] == signal && past.servedBy[k] == h && CallsOf(past.made, k) == handler(h, signal)
      modifies `running
      ensures Valid() && running == old(running) - {k}
    {
      hide InOrder, Sorted, Explained, CallsOf, HandlersAfter, DefaultAfter, UnderDefault;
      HandlerEnds(handler, past, running, k);
      running := running - {k};
    }

    /** In a settled state, a signal that can be handed over at once finds none of its name in the buffer. */
    lemma Arriving(signal: Signal)
      requires Valid() && Settled() && signal.arrival == |accepted|
      ensures Sorted(bufferedSignals, Defaulted(), |accepted| + 1)
      ensures Deliverable(signal.name) ==> forall s :: s in bufferedSignals ==> s.name != signal.name
      ensures defaultSignalHandler.Some? ==> Between(signal, bufferedSignals, Defaulted())
      ensures forall s :: s in Defaulted() || s in bufferedSignals ==> s.arrival < signal.arrival
    {
      hide InOrder, Explained;
    }

    /** The synchronous part of the handler of signal `k`. */
    method RunHandler(calls: seq<Call>, ghost k: nat)
      requires Valid() && k in running && CallsOf(past.made, k) == []
      modifies this
      ensures Valid() && accepted == old(accepted) && (old(Settled()) ==> Settled())
      ensures |bufferedSignals| <= |old(bufferedSignals)| && Since(old(past), past)
      ensures running == old(running) && SameCalls(running - {k}, old(past.made), past.made)
      ensures CallsOf(past.made, k) == calls
      ensures old(bufferedSignals) == [] ==>
                && past.handed == old(past.handed) && bufferedSignals == []
                && past.made == old(past.made) + AllBy(calls, k)
      decreases |bufferedSignals|, 2, 0
    {
      hide InOrder, Sorted, Known, CallsOf, AllBy;
      NoneBy(past.made, k);
      for i := 0 to |calls|
        invariant Valid() && accepted == old(accepted) && (old(Settled()) ==> Settled())
        invariant |bufferedSignals| <= |old(bufferedSignals)| && Since(old(past), past)
        invariant running == old(running) && SameCalls(running - {k}, old(past.made), past.made)
        invariant CallsOf(past.made, k) == calls[..i]
        invariant old(bufferedSignals) == [] ==>
                    && past.handed == old(past.handed) && bufferedSignals == []
                    && past.made == old(past.made) + AllBy(calls[..i], k)
      {
        AllByMore(old(past.made), calls, i, k);
        MakeCall(calls[i], k);
      }
      assert calls[..|calls|] == calls;
    }

    method MakeCall(call: Call, ghost k: nat)
      requires Valid() && k in running
      modifies this
      ensures Valid() && accepted == old(accepted) && (old(Settled()) ==> Settled())
      ensures |bufferedSignals| <= |old(bufferedSignals)| && Since(old(past), past)
      ensures running == old(running) && SameCalls(running - {k}, old(past.made), past.made)
      ensures CallsOf(past.made, k) == old(CallsOf(past.made, k)) + [call]
      ensures old(bufferedSignals) == [] ==>
                past == WithCall(old(past), Made(call, Some(k))) && bufferedSignals == []
      decreases |bufferedSignals|, 1, 1
    {
      hide Valid, CallsOf, HandlersAfter, DefaultAfter;
      MadeMore(past.made, Made(call, Some(k)));
      match call
      case SetHandler(name, h) => SetHandler(name, h, Some(k));
      case SetDefault(h) => SetDefaultSignalHandler(h, Some(k));
    }

    /** Setting a handler hands over, first of all, the first signal that waited for it; when none did, it sets the
        handler and does nothing else. */
    method SetHandler(name: string, h: Option<nat>, ghost caller: Option<nat>)
      requires Valid() && (caller.Some? ==> caller.value in running)
      modifies this
      ensures h.None? || (old(Settled()) && forall s :: s in old(bufferedSignals) ==> s.name != name) ==>
                && signalHandlers ==
                   (if h.Some? then old(signalHandlers)[name := h.value] else old(signalHandlers) - {name})
                && defaultSignalHandler == old(defaultSignalHandler) && bufferedSignals == old(bufferedSignals)
                && past == WithCall(old(past), Made(Call.SetHandler(name, h), caller))
      ensures h.Some? && old(Settled()) ==>
                forall k :: 0 <= k < |old(bufferedSignals)| && FirstOf(old(bufferedSignals), k, name) ==>
                  Since(WithSignal(WithCall(old(past), Made(Call.SetHandler(name, h), caller)), old(bufferedSignals)[k],
                                   h.value), past)
      ensures Valid() && accepted == old(accepted) && (old(Settled()) || h.Some? ==> Settled())
      ensures |bufferedSignals| <= |old(bufferedSignals)|
      ensures running == old(running)
      ensures var past' := WithCall(old(past), Made(Call.SetHandler(name, h), caller));
              Since(past', past) && SameCalls(running, past'.made, past.made)
      decreases |bufferedSignals|, 1, 0
    {
      hide Valid, SameCalls;
      NoMoreCalls(running, WithCall(past, Made(Call.SetHandler(name, h), caller)).made);
      Assign(name, h, caller);
      if h.Some? {
        DispatchBufferedSignals();
      }
    }

    lemma NoMoreCalls(running: set<nat>, made: seq<Made>)
      ensures SameCalls(running, made, made)
    {
    }

    method Assign(name: string, h: Option<nat>, ghost caller: Option<nat>)
      requires Valid() && (caller.Some? ==> caller.value in running)
      modifies `signalHandlers, `past
      ensures Valid() && past == WithCall(old(past), Made(Call.SetHandler(name, h), caller))
      ensures signalHandlers == if h.Some? then old(signalHandlers)[name := h.value] else old(signalHandlers) - {name}
    {
      hide InOrder, Sorted, Explained, CallsOf, HandlersAfter, DefaultAfter, UnderDefault;
      ghost var call := Made(Call.SetHandler(name, h), caller);
      CallKeeps(handler, past, running, call);
      UnderDefaultWithCall(past.made, past.handed, past.madeBefore, call);
      MadeMore(past.made, call);
      past := WithCall(past, call);
      if h.Some? {
        signalHandlers := signalHandlers[name := h.value];
      } else {
        signalHandlers := signalHandlers - {name};
      }
    }

    method SetDefaultSignalHandler(h: Option<nat>, ghost caller: Option<nat>)
      requires Valid() && (caller.Some? ==> caller.value in running)
      modifies this
      ensures h.None? || old(bufferedSignals) == [] ==>
                && defaultSignalHandler == h
                && signalHandlers == old(signalHandlers) && bufferedSignals == old(bufferedSignals)
                && past == WithCall(old(past), Made(SetDefault(h), caller))
      ensures h.Some? && old(Settled()) && old(bufferedSignals) != [] ==>
                Since(WithSignal(WithCall(old(past), Made(SetDefault(h), caller)), old(bufferedSignals)[0], h.value),
                      past)
      ensures Valid() && accepted == old(accepted) && (old(Settled()) || h.Some? ==> Settled())
      ensures |bufferedSignals| <= |old(bufferedSignals)|
      ensures running == old(running)
      ensures var past' := WithCall(old(past), Made(SetDefault(h), caller));
              Since(past', past) && SameCalls(running, past'.made, past.made)
      decreases |bufferedSignals|, 1, 0
    {
      hide Valid, SameCalls;
      NoMoreCalls(running, WithCall(past, Made(SetDefault(h), caller)).made);
      AssignDefault(h, caller);
      if h.Some? {
        DispatchBufferedSignals();
      }
    }

    method AssignDefault(h: Option<nat>, ghost caller: Option<nat>)
      requires Valid() && (caller.Some? ==> caller.value in running)
      modifies `defaultSignalHandler, `past
      ensures Valid() && past == WithCall(old(past), Made(SetDefault(h), caller)) && defaultSignalHandler == h
    {
      hide InOrder, Sorted, Explained, CallsOf, HandlersAfter, DefaultAfter, UnderDefault;
      ghost var call := Made(SetDefault(h), caller);
      CallKeeps(handler, past, running, call);
      UnderDefaultWithCall(past.made, past.handed, past.madeBefore, call);
      MadeMore(past.made, call);
      past := WithCall(past, call);
      defaultSignalHandler := h;
    }

    /** The position of the first buffered signal that has a handler of its own, or `None`. */
    method FirstWithHandler() returns (k: Option<nat>)
      ensures k.Some? ==> k.value < |bufferedSignals| && bufferedSignals[k.value].name in signalHandlers &&
                          forall i :: 0 <= i < k.value ==> bufferedSignals[i].name !in signalHandlers
      ensures k.None? ==> forall s :: s in bufferedSignals ==> s.name !in signalHandlers
    {
      for i := 0 to |bufferedSignals|
        invariant forall j :: 0 <= j < i ==> bufferedSignals[j].name !in signalHandlers
      {
        if bufferedSignals[i].name in signalHandlers {
          return Some(i);
        }
      }
      return None;
    }

    method TakeNext(k: nat) returns (signal: Signal)
      requires Valid() && IsNext(k)
      modifies `bufferedSignals
      ensures Ready(signal) && signal == old(bufferedSignals[k]) && |bufferedSignals| < |old(bufferedSignals)|
    {
      assert defaultSignalHandler.Some? ==> Deliverable(bufferedSignals[0].name);
      TakingFirst(past.handed, bufferedSignals, k, accepted);
      TakingKeepsSorted(bufferedSignals, Defaulted(), |accepted|, k);
      hide InOrder, Sorted, Between, Explained, HandlersAfter, DefaultAfter, UnderDefault;
      signal := bufferedSignals[k];
      bufferedSignals := bufferedSignals[..k] + bufferedSignals[k + 1..];
    }

    /** One round of the loop: hand over the next signal, if there is one. */
    method DispatchNext() returns (more: bool)
      requires Valid()
      modifies this
      ensures Valid() && accepted == old(accepted) && Since(old(past), past)
      ensures running == old(running) && SameCalls(running, old(past.made), past.made)
      ensures if more then |bufferedSignals| < |old(bufferedSignals)| && !old(Settled())
              else Settled() && unchanged(this)
      ensures forall k :: 0 <= k < |old(bufferedSignals)| && old(IsNext(k)) ==>
                Since(WithSignal(old(past), old(bufferedSignals)[k], old(HandlerOf(bufferedSignals[k].name))), past)
      decreases |bufferedSignals|, 0, 0
    {
      hide Valid, Ready, SameCalls;
      NoMoreCalls(running, past.made);
      if bufferedSignals == [] {
        return false;
      }
      var k := 0;
      if defaultSignalHandler.None? {
        var found := FirstWithHandler();
        if found.None? {
          return false;
        }
        k := found.value;
      }
      var signal := TakeNext(k);
      SignalWorkflow(signal);
      more := true;
    }

    method DispatchBufferedSignals()
      requires Valid()
      modifies this
      ensures Valid() && Settled() && accepted == old(accepted)
      ensures running == old(running) && SameCalls(running, old(past.made), past.made)
      ensures forall k :: 0 <= k < |old(bufferedSignals)| && old(IsNext(k)) ==>
                Since(WithSignal(old(past), old(bufferedSignals)[k], old(HandlerOf(bufferedSignals[k].name))), past)
      ensures |bufferedSignals| <= |old(bufferedSignals)| && Since(old(past), past)
      ensures old(Settled()) ==> unchanged(this)
      decreases |bufferedSignals|, 0, 1
    {
      hide Valid, CallsOf;
      var more := DispatchNext();
      while more
        invariant Valid() && accepted == old(accepted) && (!more ==> Settled())
        invariant running == old(running) && SameCalls(running, old(past.made), past.made)
        invariant |bufferedSignals| <= |old(bufferedSignals)| && Since(old(past), past)
        invariant old(Settled()) ==> !more && unchanged(this)
        invariant forall k :: 0 <= k < |old(bufferedSignals)| && old(IsNext(k)) ==>
                    Since(WithSignal(old(past), old(bufferedSignals)[k], old(HandlerOf(bufferedSignals[k].name))), past)
        decreases |bufferedSignals|, more
      {
        more := DispatchNext();
      }
    }

    /** What `Valid` means for a caller: every signal is buffered or was handed over, exactly once; each name was
        served in order; what was handed over under a default handler was handed over in the order of arrival. Each
        signal went to the handler that was set for it when it was handed over, its own before the default one; that
        handler made all its calls, in order; and the handlers set now are what all these calls and those from
        elsewhere left. */
    lemma Promise()
      requires Valid()
      ensures multiset(past.handed) + multiset(bufferedSignals) == multiset(accepted)
      ensures forall name: string :: Of(past.handed, name) <= Of(accepted, name)
      ensures signalHandlers == HandlersAfter(past.made) && defaultSignalHandler == DefaultAfter(past.made)
      ensures |past.servedBy| == |past.madeBefore| == |past.handed|
      ensures forall i :: 0 <= i < |past.handed| ==>
                && past.madeBefore[i] <= |past.made|
                && Serving(past.made[..past.madeBefore[i]], past.handed[i].name) == Some(past.servedBy[i])
                && (i !in running ==> CallsOf(past.made, i) == handler(past.servedBy[i], past.handed[i]))
      ensures forall i, j ::
                0 <= i < j < |past.handed| && ByDefault(past.made, past.madeBefore[i]) &&
                ByDefault(past.made, past.madeBefore[j]) ==>
                  past.handed[i].arrival < past.handed[j].arrival
    {
      forall i, j | 0 <= i < j < |past.handed| && ByDefault(past.made, past.madeBefore[i]) &&
                    ByDefault(past.made, past.madeBefore[j])
        ensures past.handed[i].arrival < past.handed[j].arrival
      {
        AscendingPairs(past.made, past.handed, past.madeBefore, i, j);
      }
      ExactlyOnce(past.handed, bufferedSignals, accepted);
      forall name: string ensures Of(past.handed, name) <= Of(accepted, name) {
        assert Of(past.handed, name) + Of(bufferedSignals, name) == Of(accepted, name);
      }
    }
  }
}
