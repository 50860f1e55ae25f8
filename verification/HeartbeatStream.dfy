/** packages/worker/src/worker.ts, `activityHeartbeat$`: the heartbeat stream of one activity, from the `create`
    notification to the close, with an asynchronous sender that answers each send with one flush. */
module HeartbeatStream {
  import opened Wrappers

  type Heartbeat = nat

  type Callback = nat

  datatype State = State(
    closed: bool, processing: bool, completionCallback: Option<Callback>, pending: Option<Heartbeat>)

  datatype Input =
    | Create
    | Beat(heartbeat: Heartbeat)
    | Flush
    | Completion(flushRequired: bool, callback: Callback)

  datatype Output = Nothing | Send(heartbeat: Heartbeat) | Close(completionCallback: Option<Callback>)

  datatype StateAndOutput = StateAndOutput(state: State, output: Output)

  function Process(state: State, heartbeat: Heartbeat): StateAndOutput {
    StateAndOutput(state.(processing := true, pending := None), Send(heartbeat))
  }

  function StorePending(state: State, heartbeat: Heartbeat): StateAndOutput {
    StateAndOutput(state.(pending := Some(heartbeat)), Nothing)
  }

  function Complete(callback: Callback): StateAndOutput {
    StateAndOutput(State(true, false, None, None), Close(Some(callback)))
  }

  /** The state mapper. */
  function Mapper(state: State, input: Input): StateAndOutput {
    if input.Create? then StateAndOutput(State(false, false, None, None), Nothing)
    else if state.closed then StateAndOutput(state, Close(None))
    else match input
      case Beat(heartbeat) =>
        if state.processing then StorePending(state, heartbeat) else Process(state, heartbeat)
      case Flush =>
        if state.pending.Some? then Process(state, state.pending.value)
        else if state.completionCallback.Some? then Complete(state.completionCallback.value)
        else StateAndOutput(state.(processing := false), Nothing)
      case Completion(flushRequired, callback) =>
        if state.processing then
          StateAndOutput(
            state.(pending := if flushRequired then state.pending else None, completionCallback := Some(callback)),
            Nothing)
        else if !flushRequired then Complete(callback)
        else if state.pending.Some? then
          Process(state.(completionCallback := Some(callback)), state.pending.value)
        else Complete(callback)
  }

  // ---- the stream in its environment

  /** One activity. After a close output the group of its inputs ends, and what still arrives for it reaches a new
      group, which starts closed: the state that the close left. `accepted`: heartbeats that arrived while the stream
      was open; `sent`: those handed to the sender; `inFlight`: those it has not answered. */
  datatype World = World(
    state: State, created: bool, completion: Option<Completed>,
    accepted: seq<Heartbeat>, sent: seq<Heartbeat>, inFlight: seq<Heartbeat>, called: seq<Callback>)

  /** The completion, and how many heartbeats had been sent and accepted when it came. */
  datatype Completed = Completed(flushRequired: bool, callback: Callback, sent: nat, accepted: nat)

  const INIT := World(State(true, false, None, None), false, None, [], [], [], [])

  /** The activity creates its stream once and completes once; a flush answers one send; anything may heartbeat. */
  predicate Enabled(w: World, input: Input) {
    match input
    case Create => !w.created
    case Beat(_) => true
    case Flush => w.inFlight != []
    case Completion(_, _) => w.created && w.completion.None?
  }

  /** What the environment records of an input before the mapper sees it. */
  function Noted(w: World, input: Input): World {
    match input
    case Create => w.(created := true)
    case Beat(h) => if w.state.closed then w else w.(accepted := w.accepted + [h])
    case Flush => if w.inFlight == [] then w else w.(inFlight := w.inFlight[1..])
    case Completion(flushRequired, callback) =>
      w.(completion := Some(Completed(flushRequired, callback, |w.sent|, |w.accepted|)))
  }

  function Next(w: World, input: Input): World {
    var n := Noted(w, input);
    var StateAndOutput(state, output) := Mapper(w.state, input);
    match output
    case Nothing => n.(state := state)
    case Send(h) => n.(state := state, sent := n.sent + [h], inFlight := n.inFlight + [h])
    case Close(callback) =>
      n.(state := state, called := if callback.Some? then n.called + [callback.value] else n.called)
  }

  predicate Legal(w: World, inputs: seq<Input>)
    decreases |inputs|
  {
    inputs == [] || (Enabled(w, inputs[0]) && Legal(Next(w, inputs[0]), inputs[1..]))
  }

  function After(w: World, inputs: seq<Input>): World
    decreases |inputs|
  {
    if inputs == [] then w else After(Next(w, inputs[0]), inputs[1..])
  }

  // ---- the invariant

  /** `s` is what is left of `t` after dropping some elements. */
  predicate Subsequence(s: seq<Heartbeat>, t: seq<Heartbeat>) {
    if s == [] then true
    else t != [] && (if s[|s| - 1] == t[|t| - 1] && Subsequence(s[..|s| - 1], t[..|t| - 1]) then true
                     else Subsequence(s, t[..|t| - 1]))
  }

  function Waiting(w: World): seq<Heartbeat> { if w.state.pending.Some? then [w.state.pending.value] else [] }

  function Last(s: seq<Heartbeat>): Option<Heartbeat> { if s == [] then None else Some(s[|s| - 1]) }

  predicate Protocol(w: World) {
    var s := w.state;
    // exactly one heartbeat is in flight while `processing` is set, and none otherwise
    && (s.processing <==> |w.inFlight| == 1) && |w.inFlight| <= 1
    // a pending heartbeat or a stored callback waits for a flush that is still to come
    && (s.pending.Some? || s.completionCallback.Some? ==> s.processing)
    // closed before the stream is created and from the callback on, open in between
    && (s.closed <==> !w.created || w.called != [])
    && (s.closed ==> !s.processing)
    // the callback is stored from the completion until it is called
    && (w.called != [] ==> w.completion.Some? && w.called == [w.completion.value.callback])
    && (w.completion.Some? ==> w.created)
    && (w.created ==>
         s.completionCallback ==
         if w.completion.Some? && w.called == [] then Some(w.completion.value.callback) else None)
    && (!w.created ==> s.completionCallback.None? && w.accepted == [])
  }

  /** Nothing is sent out of order, and the newest heartbeat is sent or waits. */
  predicate UpToDate(sent: seq<Heartbeat>, waiting: seq<Heartbeat>, accepted: seq<Heartbeat>) {
    Subsequence(sent + waiting, accepted) && Last(sent + waiting) == Last(accepted)
  }

  /** A completion without flush drops what waits, and the heartbeats that follow it start afresh. */
  predicate Order(w: World) {
    && Subsequence(w.sent + Waiting(w), w.accepted)
    && match w.completion
       case Some(Completed(false, _, n, m)) =>
         n <= |w.sent| && m <= |w.accepted| && UpToDate(w.sent[n..], Waiting(w), w.accepted[m..])
       case _ => UpToDate(w.sent, Waiting(w), w.accepted)
  }

  predicate Inv(w: World) { Protocol(w) && Order(w) }

  lemma {:induction false} SubsequenceDrops(s: seq<Heartbeat>, t: seq<Heartbeat>, last: Heartbeat)
    requires Subsequence(s, t)
    ensures Subsequence(s, t + [last])
    ensures Subsequence(s + [last], t + [last])
  {
    assert (t + [last])[..|t|] == t && (s + [last])[..|s|] == s;
  }

  lemma {:induction false} SubsequenceShorter(s: seq<Heartbeat>, t: seq<Heartbeat>)
    requires s != [] && Subsequence(s, t)
    ensures Subsequence(s[..|s| - 1], t)
    decreases |t|
  {
    var init := s[..|s| - 1];
    if s[|s| - 1] == t[|t| - 1] && Subsequence(init, t[..|t| - 1]) {
      SubsequenceDrops(init, t[..|t| - 1], t[|t| - 1]);
      assert t == t[..|t| - 1] + [t[|t| - 1]];
    } else {
      SubsequenceShorter(s, t[..|t| - 1]);
      SubsequenceDrops(init, t[..|t| - 1], t[|t| - 1]);
      assert t == t[..|t| - 1] + [t[|t| - 1]];
    }
  }

  lemma StepKeepsProtocol(w: World, input: Input)
    requires Protocol(w) && Enabled(w, input)
    ensures Protocol(Next(w, input))
  {
  }

  /** What is sent or waits, and what was accepted, from some point on. */
  lemma WorkAfter(w: World, input: Input, n: nat, m: nat)
    requires Protocol(w) && Enabled(w, input) && n <= |w.sent| && m <= |w.accepted|
    ensures var t := Next(w, input);
            var work, accepted := w.sent[n..] + Waiting(w), w.accepted[m..];
            if input.Beat? && !w.state.closed then
              && t.sent[n..] + Waiting(t) == w.sent[n..] + [input.heartbeat]
              && t.accepted[m..] == accepted + [input.heartbeat]
            else
              && t.sent[n..] + Waiting(t) ==
                 (if input.Completion? && !input.flushRequired then w.sent[n..] else work)
              && t.accepted[m..] == accepted
  {
  }

  lemma StepKeepsUpToDate(w: World, input: Input, n: nat, m: nat)
    requires Protocol(w) && Enabled(w, input) && n <= |w.sent| && m <= |w.accepted|
    requires UpToDate(w.sent[n..], Waiting(w), w.accepted[m..])
    requires input.Completion? ==> input.flushRequired
    ensures var t := Next(w, input); UpToDate(t.sent[n..], Waiting(t), t.accepted[m..])
  {
    WorkAfter(w, input, n, m);
    if input.Beat? {
      DropWaiting(w.sent[n..], Waiting(w), w.accepted[m..]);
      SubsequenceDrops(w.sent[n..], w.accepted[m..], input.heartbeat);
    }
    hide Subsequence, Next;
  }

  lemma DropWaiting(sent: seq<Heartbeat>, waiting: seq<Heartbeat>, accepted: seq<Heartbeat>)
    requires |waiting| <= 1 && Subsequence(sent + waiting, accepted)
    ensures Subsequence(sent, accepted)
  {
    assert sent + [] == sent;
    if waiting != [] {
      SubsequenceShorter(sent + waiting, accepted);
      assert (sent + waiting)[..|sent|] == sent;
    }
  }

  lemma StepGrows(w: World, input: Input)
    requires Enabled(w, input)
    ensures var t := Next(w, input);
            && w.sent <= t.sent && w.accepted <= t.accepted
            && if input.Completion? then
                 t.completion ==
                 Some(Completed(input.flushRequired, input.callback, |w.sent|, |w.accepted|))
               else t.completion == w.completion
  {
  }

  lemma SinceStart(w: World)
    ensures UpToDate(w.sent[0..], Waiting(w), w.accepted[0..]) <==> UpToDate(w.sent, Waiting(w), w.accepted)
  {
    assert w.sent[0..] == w.sent && w.accepted[0..] == w.accepted;
  }

  lemma StepKeepsOrder(w: World, input: Input)
    requires Protocol(w) && Order(w) && Enabled(w, input)
    ensures Order(Next(w, input))
  {
    var t := Next(w, input);
    StepKeepsSubsequence(w, input);
    StepGrows(w, input);
    SinceStart(w);
    SinceStart(t);
    if input.Completion? && !input.flushRequired {
      CompletionStartsAfresh(w, input.callback);
    } else {
      hide Subsequence, UpToDate, Next;
      match w.completion
      case Some(Completed(false, _, n, m)) => StepKeepsUpToDate(w, input, n, m);
      case _ => StepKeepsUpToDate(w, input, 0, 0);
    }
  }

  lemma CompletionStartsAfresh(w: World, callback: Callback)
    requires Protocol(w) && Order(w) && Enabled(w, Completion(false, callback))
    ensures Order(Next(w, Completion(false, callback)))
  {
    StepKeepsSubsequence(w, Completion(false, callback));
    hide Subsequence;
  }

  lemma StepKeepsSubsequence(w: World, input: Input)
    requires Protocol(w) && Subsequence(w.sent + Waiting(w), w.accepted) && Enabled(w, input)
    ensures var t := Next(w, input); Subsequence(t.sent + Waiting(t), t.accepted)
  {
    var t := Next(w, input);
    WorkAfter(w, input, 0, 0);
    assert w.sent[0..] == w.sent && w.accepted[0..] == w.accepted;
    assert t.sent[0..] == t.sent && t.accepted[0..] == t.accepted;
    DropWaiting(w.sent, Waiting(w), w.accepted);
    if input.Beat? {
      SubsequenceDrops(w.sent, w.accepted, input.heartbeat);
    }
    hide Subsequence, Next;
  }

  /** Every step of the stream and its environment keeps the invariant. */
  lemma StepKeepsInv(w: World, input: Input)
    requires Inv(w) && Enabled(w, input)
    ensures Inv(Next(w, input))
  {
    StepKeepsProtocol(w, input);
    StepKeepsOrder(w, input);
  }

  lemma {:induction false} RunKeepsInv(w: World, inputs: seq<Input>)
    requires Inv(w) && Legal(w, inputs)
    ensures Inv(After(w, inputs))
    decreases |inputs|
  {
    if inputs != [] {
      StepKeepsInv(w, inputs[0]);
      RunKeepsInv(Next(w, inputs[0]), inputs[1..]);
    }
  }

  // ---- what every run of a stream satisfies

  /** One heartbeat at a time; pending work implies a flush to come; the callback runs at most once, only with nothing
      in flight, and is the one of the completion; the heartbeats sent are an in-order selection of those accepted. */
  lemma SafetyOfRuns(inputs: seq<Input>)
    requires Legal(INIT, inputs)
    ensures var w := After(INIT, inputs);
      && (w.state.processing <==> |w.inFlight| == 1) && |w.inFlight| <= 1
      && (w.state.pending.Some? || w.state.completionCallback.Some? ==> w.state.processing)
      && |w.called| <= 1 && (w.called != [] ==> w.inFlight == [] && w.state.closed)
      && (forall callback :: callback in w.called ==>
           Completion(true, callback) in inputs || Completion(false, callback) in inputs)
      && Subsequence(w.sent, w.accepted)
  {
    RunKeepsInv(INIT, inputs);
    CompletionWasAsked(INIT, inputs);
    var w := After(INIT, inputs);
    DropWaiting(w.sent, Waiting(w), w.accepted);
  }

  lemma {:induction false} CompletionWasAsked(w: World, inputs: seq<Input>)
    requires Legal(w, inputs)
    ensures match After(w, inputs).completion
            case Some(c) => w.completion == Some(c) || Completion(c.flushRequired, c.callback) in inputs
            case None => w.completion == None
    decreases |inputs|
  {
    if inputs != [] {
      StepGrows(w, inputs[0]);
      hide Next;
      CompletionWasAsked(Next(w, inputs[0]), inputs[1..]);
    }
  }

  /** The branch that flushes a final heartbeat straight from a completion is never taken. */
  lemma FlushOnCompletionUnreachable(inputs: seq<Input>, callback: Callback)
    requires Legal(INIT, inputs + [Completion(true, callback)])
    ensures var s := After(INIT, inputs).state;
      !(!s.closed && !s.processing && s.pending.Some?)
  {
    LegalPrefix(INIT, inputs, [Completion(true, callback)]);
    RunKeepsInv(INIT, inputs);
  }

  lemma {:induction false} LegalPrefix(w: World, inputs: seq<Input>, more: seq<Input>)
    requires Legal(w, inputs + more)
    ensures Legal(w, inputs) && Legal(After(w, inputs), more)
    ensures After(w, inputs + more) == After(After(w, inputs), more)
    decreases |inputs|
  {
    if inputs == [] {
      assert inputs + more == more;
    } else {
      assert (inputs + more)[1..] == inputs[1..] + more;
      LegalPrefix(Next(w, inputs[0]), inputs[1..], more);
    }
  }

  /** A closed mapper answers whatever comes, but the creation of the stream, by closing again. */
  lemma ClosedMapperIsSilent(state: State, input: Input)
    requires state.closed
    ensures var r := Mapper(state, input);
      && !r.output.Send? && (r.output.Close? ==> r.output.completionCallback.None?)
      && (!input.Create? ==> r == StateAndOutput(state, Close(None)))
      && (r.state.closed <==> !input.Create?)
  {
  }

  lemma {:induction false} SilentOnceCalled(w: World, more: seq<Input>)
    requires Inv(w) && w.called != [] && Legal(w, more)
    ensures After(w, more).sent == w.sent && After(w, more).called == w.called && After(w, more).state.closed
    decreases |more|
  {
    if more != [] {
      ClosedMapperIsSilent(w.state, more[0]);
      StepKeepsInv(w, more[0]);
      hide Inv, Mapper;
      SilentOnceCalled(Next(w, more[0]), more[1..]);
    }
  }

  /** Once the callback has run nothing is sent and no callback runs, whatever still arrives. */
  lemma NothingAfterClose(inputs: seq<Input>, more: seq<Input>)
    requires Legal(INIT, inputs + more) && After(INIT, inputs).called != []
    ensures After(INIT, inputs + more).sent == After(INIT, inputs).sent
    ensures After(INIT, inputs + more).called == After(INIT, inputs).called
  {
    LegalPrefix(INIT, inputs, more);
    RunKeepsInv(INIT, inputs);
    SilentOnceCalled(After(INIT, inputs), more);
  }

  /** Nor is anything sent before the stream is created, however many heartbeats stray in. */
  lemma {:induction false} NothingBeforeCreate(inputs: seq<Input>)
    requires Legal(INIT, inputs) && Create !in inputs
    ensures After(INIT, inputs) == INIT
    decreases |inputs|
  {
    if inputs != [] {
      ClosedMapperIsSilent(INIT.state, inputs[0]);
      NothingBeforeCreate(inputs[1..]);
    }
  }

  /** When the callback of a completion that required a flush has run, the newest accepted heartbeat was sent. */
  lemma FlushedBeforeCallback(inputs: seq<Input>)
    requires Legal(INIT, inputs)
    ensures var w := After(INIT, inputs);
      w.called != [] ==>
        w.completion.Some? && (w.completion.value.flushRequired ==> Last(w.sent) == Last(w.accepted))
  {
    RunKeepsInv(INIT, inputs);
    var w := After(INIT, inputs);
    assert w.sent + [] == w.sent;
  }

  // ---- a completion without flush

  lemma {:induction false} RunGrows(w: World, inputs: seq<Input>)
    requires Legal(w, inputs)
    ensures var t := After(w, inputs);
      && w.sent <= t.sent && w.accepted <= t.accepted
      && (w.completion.Some? ==> t.completion == w.completion)
    decreases |inputs|
  {
    if inputs != [] {
      StepGrows(w, inputs[0]);
      hide Next;
      RunGrows(Next(w, inputs[0]), inputs[1..]);
    }
  }

  /** It runs at once when nothing is in flight; otherwise it drops what waits, and the next flush sends nothing and
      runs the callback of the completion. */
  lemma NothingFlushed(inputs: seq<Input>, callback: Callback)
    requires Legal(INIT, inputs + [Completion(false, callback)])
    ensures var w := After(INIT, inputs);
      var done := Next(w, Completion(false, callback));
      && w.called == [] && done == After(INIT, inputs + [Completion(false, callback)]) && done.sent == w.sent
      && (w.inFlight == [] ==> done.called == [callback])
      && (w.inFlight != [] ==>
           && done.called == [] && Enabled(done, Flush)
           && Next(done, Flush).sent == w.sent && Next(done, Flush).called == [callback])
  {
    LegalPrefix(INIT, inputs, [Completion(false, callback)]);
    RunKeepsInv(INIT, inputs);
  }

  /** Whatever follows: only heartbeats accepted after the completion are still sent, in order, and only its own
      callback runs; when it has run, the newest of them was sent. */
  lemma OnlyLaterOnesAreSent(inputs: seq<Input>, callback: Callback, more: seq<Input>)
    requires Legal(INIT, inputs + ([Completion(false, callback)] + more))
    ensures var w, t := After(INIT, inputs), After(INIT, inputs + ([Completion(false, callback)] + more));
      && w.sent <= t.sent && w.accepted <= t.accepted
      && Subsequence(t.sent[|w.sent|..], t.accepted[|w.accepted|..])
      && t.called in {[], [callback]}
      && (t.called != [] ==> Last(t.sent[|w.sent|..]) == Last(t.accepted[|w.accepted|..]))
  {
    var after := [Completion(false, callback)] + more;
    LegalPrefix(INIT, inputs, after);
    RunKeepsInv(INIT, inputs + after);
    var w, t := After(INIT, inputs), After(INIT, inputs + after);
    var done := Next(w, after[0]);
    assert after[1..] == more;
    RunGrows(done, more);
    RunGrows(w, after);
    assert t.completion == done.completion == Some(Completed(false, callback, |w.sent|, |w.accepted|));
    var late := t.sent[|w.sent|..];
    assert late + [] == late;
    DropWaiting(late, Waiting(t), t.accepted[|w.accepted|..]);
  }

  /** Flushes still needed before the stored callback runs. */
  function Owed(w: World): nat {
    if w.completion.Some? && w.called == [] then 1 + |Waiting(w)| else 0
  }

  function Flushes(inputs: seq<Input>): nat {
    if inputs == [] then 0 else (if inputs[0].Flush? then 1 else 0) + Flushes(inputs[1..])
  }

  function Beats(inputs: seq<Input>): nat {
    if inputs == [] then 0 else (if inputs[0].Beat? then 1 else 0) + Beats(inputs[1..])
  }

  /** A flush brings the callback one step closer, a heartbeat takes it at most one step back. */
  lemma OwedStep(w: World, input: Input)
    requires Inv(w) && w.completion.Some? && w.called == [] && Enabled(w, input)
    ensures Owed(w) <= 2 && Next(w, input).completion.Some?
    ensures input.Flush? ==> Owed(Next(w, input)) + 1 == Owed(w)
    ensures input.Beat? ==> Owed(Next(w, input)) <= Owed(w) + 1
    ensures input.Flush? || input.Beat?
    ensures Owed(Next(w, input)) == 0 ==> Next(w, input).called != []
  {
  }

  /** After the completion the callback runs by the time the flushes outnumber the heartbeats by two. */
  lemma {:induction false} CallbackRuns(w: World, more: seq<Input>)
    requires Inv(w) && w.completion.Some? && Legal(w, more)
    requires Flushes(more) >= Owed(w) + Beats(more)
    ensures |After(w, more).called| == 1 && Owed(w) <= 2
    decreases |more|
  {
    if w.called != [] {
      SilentOnceCalled(w, more);
    } else if more != [] {
      StepKeepsInv(w, more[0]);
      OwedStep(w, more[0]);
      CallbackRuns(Next(w, more[0]), more[1..]);
    }
  }

  /** A completed activity never waits in vain: until its callback has run, a flush is on its way. */
  lemma CompletionNeverStuck(inputs: seq<Input>)
    requires Legal(INIT, inputs) && After(INIT, inputs).completion.Some?
    ensures After(INIT, inputs).called == [] ==> Enabled(After(INIT, inputs), Flush)
  {
    RunKeepsInv(INIT, inputs);
  }
}
