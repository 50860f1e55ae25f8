/** packages/client/src/iterators-utils.ts, `mapAsyncIterable` with concurrency: N mapper tasks, an optional semaphore
    with wake-up events and a result buffer, interleaved in any order with a consumer, on an error-free source. */
module BoundedMapper {
  import opened Sequences
  import opened Wrappers

  /** Where a mapper task is suspended: about to test the semaphore for the first time (`Acquiring`) or after a
      wake-up (`Woken`), asleep on the release event, awaiting the source, awaiting the mapping function, returned. */
  datatype Task<A> = Acquiring | Woken | Sleeping | Pulling | Mapping(item: A) | Returned

  /** `value` and `tokens`, the release events nobody has taken yet, mean nothing without a buffer limit. */
  datatype State<A, B> = State(
    tasks: seq<Task<A>>, value: int, tokens: nat, source: seq<A>, buffer: seq<B>, yielded: seq<B>)

  /** What runs next: a task, up to its next `await`, or the consumer. A release wakes the sleeper `wake`, any one of
      them, or is kept as a token when nobody sleeps. */
  datatype Event = Run(task: nat) | Consume(wake: nat)

  function Start<A, B>(concurrency: nat, limit: Option<int>, source: seq<A>): State<A, B> {
    State(seq(concurrency, _ => Acquiring), if limit.Some? then limit.value + concurrency else 0, 0, source, [], [])
  }

  predicate Enabled<A, B>(s: State<A, B>, e: Event) {
    match e
    case Run(i) => i < |s.tasks| && !s.tasks[i].Sleeping? && !s.tasks[i].Returned?
    case Consume(j) => s.buffer != [] && j < |s.tasks| && (s.tasks[j].Sleeping? || NobodySleeps(s.tasks))
  }

  predicate NobodySleeps<A>(tasks: seq<Task<A>>) { forall k :: 0 <= k < |tasks| ==> !tasks[k].Sleeping? }

  function Next<A, B>(s: State<A, B>, e: Event, limit: Option<int>, mapFn: A -> B): State<A, B>
    requires Enabled(s, e)
  {
    match e
    case Consume(j) =>
      var t := s.(buffer := s.buffer[1..], yielded := s.yielded + [s.buffer[0]]);
      if limit.None? then t
      else if t.tasks[j].Sleeping? then t.(value := t.value + 1, tasks := t.tasks[j := Woken])
      else t.(value := t.value + 1, tokens := t.tokens + 1)
    case Run(i) =>
      match s.tasks[i]
      case Pulling =>
        if s.source == [] then s.(tasks := s.tasks[i := Returned])
        else s.(tasks := s.tasks[i := Mapping(s.source[0])], source := s.source[1..])
      case Mapping(x) => s.(tasks := s.tasks[i := Acquiring], buffer := s.buffer + [mapFn(x)])
      case Acquiring | Woken =>
        if limit.None? then s.(tasks := s.tasks[i := Pulling])
        else if s.value > 0 then s.(tasks := s.tasks[i := Pulling], value := s.value - 1)
        else if s.tokens > 0 then s.(tasks := s.tasks[i := Woken], tokens := s.tokens - 1)
        else s.(tasks := s.tasks[i := Sleeping])
  }

  predicate Legal<A, B>(s: State<A, B>, run: seq<Event>, limit: Option<int>, mapFn: A -> B)
    decreases |run|
  {
    run == [] || (Enabled(s, run[0]) && Legal(Next(s, run[0], limit, mapFn), run[1..], limit, mapFn))
  }

  function After<A, B>(s: State<A, B>, run: seq<Event>, limit: Option<int>, mapFn: A -> B): State<A, B>
    requires Legal(s, run, limit, mapFn)
    decreases |run|
  {
    if run == [] then s else After(Next(s, run[0], limit, mapFn), run[1..], limit, mapFn)
  }

  /** All mappers have returned and the consumer has drained the buffer. */
  predicate Finished<A, B>(s: State<A, B>) {
    s.buffer == [] && forall k :: 0 <= k < |s.tasks| ==> s.tasks[k].Returned?
  }

  // ---- sums over the tasks

  function Sum<A>(tasks: seq<Task<A>>, f: Task<A> -> nat): nat {
    if tasks == [] then 0 else f(tasks[0]) + Sum(tasks[1..], f)
  }

  lemma {:induction false} SumUpdate<A>(tasks: seq<Task<A>>, i: nat, t: Task<A>, f: Task<A> -> nat)
    requires i < |tasks|
    ensures Sum(tasks[i := t], f) + f(tasks[i]) == Sum(tasks, f) + f(t)
  {
    if i == 0 {
      assert tasks[i := t][1..] == tasks[1..];
    } else {
      assert tasks[i := t][1..] == tasks[1..][i - 1 := t];
      SumUpdate(tasks[1..], i - 1, t, f);
    }
  }

  lemma {:induction false} SumIsZero<A>(tasks: seq<Task<A>>, f: Task<A> -> nat)
    ensures Sum(tasks, f) == 0 <==> forall k :: 0 <= k < |tasks| ==> f(tasks[k]) == 0
  {
    if tasks != [] {
      SumIsZero(tasks[1..], f);
      if forall k :: 0 <= k < |tasks| ==> f(tasks[k]) == 0 {
        forall k | 0 <= k < |tasks[1..]| ensures f(tasks[1..][k]) == 0 { assert tasks[1..][k] == tasks[k + 1]; }
      }
      if Sum(tasks, f) == 0 {
        forall k | 0 <= k < |tasks| ensures f(tasks[k]) == 0 { if k > 0 { assert tasks[1..][k - 1] == tasks[k]; } }
      }
    }
  }

  /** Holds a permit: it is given back when the consumer takes the result, and never by a task that returned. */
  function Holding<A>(t: Task<A>): nat { if t.Pulling? || t.Mapping? || t.Returned? then 1 else 0 }

  function Working<A>(t: Task<A>): nat { if t.Mapping? then 1 else 0 }

  function Awake<A>(t: Task<A>): nat { if t.Woken? then 1 else 0 }

  function Asleep<A>(t: Task<A>): nat { if t.Sleeping? then 1 else 0 }

  function MapAll<A, B>(xs: seq<A>, mapFn: A -> B): multiset<B> {
    if xs == [] then multiset{} else multiset{mapFn(xs[0])} + MapAll(xs[1..], mapFn)
  }

  function MapTask<A, B>(t: Task<A>, mapFn: A -> B): multiset<B> {
    if t.Mapping? then multiset{mapFn(t.item)} else multiset{}
  }

  /** The results that the tasks are working on. */
  function MapTasks<A, B>(tasks: seq<Task<A>>, mapFn: A -> B): multiset<B> {
    if tasks == [] then multiset{} else MapTask(tasks[0], mapFn) + MapTasks(tasks[1..], mapFn)
  }

  lemma AddLeft<T>(h: multiset<T>, a: multiset<T>, x: multiset<T>, b: multiset<T>, y: multiset<T>)
    requires a + x == b + y
    ensures h + a + x == h + b + y
  {
    assert h + a + x == h + (a + x);
    assert h + b + y == h + (b + y);
  }

  lemma {:induction false} MapTasksUpdate<A, B>(tasks: seq<Task<A>>, i: nat, t: Task<A>, mapFn: A -> B)
    requires i < |tasks|
    ensures MapTasks(tasks[i := t], mapFn) + MapTask(tasks[i], mapFn) == MapTasks(tasks, mapFn) + MapTask(t, mapFn)
  {
    var updated := tasks[i := t];
    if i == 0 {
      assert updated[1..] == tasks[1..];
    } else {
      assert updated[1..] == tasks[1..][i - 1 := t];
      MapTasksUpdate(tasks[1..], i - 1, t, mapFn);
      AddLeft(MapTask(tasks[0], mapFn), MapTasks(updated[1..], mapFn), MapTask(tasks[i], mapFn),
              MapTasks(tasks[1..], mapFn), MapTask(t, mapFn));
    }
  }

  lemma MapTasksUnchanged<A, B>(tasks: seq<Task<A>>, i: nat, t: Task<A>, mapFn: A -> B)
    requires i < |tasks| && !tasks[i].Mapping? && !t.Mapping?
    ensures MapTasks(tasks[i := t], mapFn) == MapTasks(tasks, mapFn)
  {
    MapTasksUpdate(tasks, i, t, mapFn);
    var before, after := MapTasks(tasks, mapFn), MapTasks(tasks[i := t], mapFn);
    assert before + multiset{} == before && after + multiset{} == after;
  }

  lemma MapTasksGrow<A, B>(tasks: seq<Task<A>>, i: nat, t: Task<A>, mapFn: A -> B)
    requires i < |tasks| && !tasks[i].Mapping? && t.Mapping?
    ensures MapTasks(tasks[i := t], mapFn) == MapTasks(tasks, mapFn) + multiset{mapFn(t.item)}
  {
    MapTasksUpdate(tasks, i, t, mapFn);
    var after := MapTasks(tasks[i := t], mapFn);
    assert after + multiset{} == after;
  }

  lemma MapTasksShrink<A, B>(tasks: seq<Task<A>>, i: nat, t: Task<A>, mapFn: A -> B)
    requires i < |tasks| && tasks[i].Mapping? && !t.Mapping?
    ensures MapTasks(tasks[i := t], mapFn) + multiset{mapFn(tasks[i].item)} == MapTasks(tasks, mapFn)
  {
    MapTasksUpdate(tasks, i, t, mapFn);
    var before := MapTasks(tasks, mapFn);
    assert before + multiset{} == before;
  }

  // ---- conservation

  /** Everything pulled from the source is being mapped, buffered or yielded; what is not pulled is still there. */
  ghost predicate Conserved<A, B>(s: State<A, B>, source: seq<A>, mapFn: A -> B) {
    MapAll(s.source, mapFn) + MapTasks(s.tasks, mapFn) + multiset(s.buffer) + multiset(s.yielded)
    == MapAll(source, mapFn)
  }

  lemma FirstMoves<T>(from: seq<T>, to: seq<T>)
    requires from != []
    ensures multiset(from[1..]) + multiset(to + [from[0]]) == multiset(from) + multiset(to)
  {
    var x := from[0];
    assert from == [x] + from[1..];
    assert multiset([x] + from[1..]) == multiset{x} + multiset(from[1..]);
    assert multiset(to + [x]) == multiset(to) + multiset{x};
  }

  lemma ConsumeConserves<A, B>(s: State<A, B>, j: nat, limit: Option<int>, source: seq<A>, mapFn: A -> B)
    requires Enabled(s, Consume(j)) && Conserved(s, source, mapFn)
    ensures Conserved(Next(s, Consume(j), limit, mapFn), source, mapFn)
  {
    hide MapAll, MapTasks;
    var n := Next(s, Consume(j), limit, mapFn);
    if n.tasks != s.tasks { MapTasksUnchanged(s.tasks, j, Woken, mapFn); }
    FirstMoves(s.buffer, s.yielded);
    AddLeft(MapAll(s.source, mapFn) + MapTasks(s.tasks, mapFn),
            multiset(n.buffer), multiset(n.yielded), multiset(s.buffer), multiset(s.yielded));
  }

  lemma MoveToTask<T>(one: multiset<T>, left: multiset<T>, working: multiset<T>, buffer: multiset<T>)
    ensures one + left + working + buffer == left + (working + one) + buffer
  {
  }

  lemma MoveToBuffer<T>(one: multiset<T>, left: multiset<T>, working: multiset<T>, buffer: multiset<T>)
    ensures left + (working + one) + buffer == left + working + (buffer + one)
  {
  }

  lemma PullConserves<A, B>(s: State<A, B>, i: nat, limit: Option<int>, source: seq<A>, mapFn: A -> B)
    requires Enabled(s, Run(i)) && s.tasks[i].Pulling? && s.source != [] && Conserved(s, source, mapFn)
    ensures Conserved(Next(s, Run(i), limit, mapFn), source, mapFn)
  {
    var n := Next(s, Run(i), limit, mapFn);
    var one := multiset{mapFn(s.source[0])};
    assert MapAll(s.source, mapFn) == one + MapAll(n.source, mapFn);
    hide MapAll, MapTasks;
    MapTasksGrow(s.tasks, i, n.tasks[i], mapFn);
    MoveToTask(one, MapAll(n.source, mapFn), MapTasks(s.tasks, mapFn), multiset(s.buffer));
  }

  lemma FinishConserves<A, B>(s: State<A, B>, i: nat, limit: Option<int>, source: seq<A>, mapFn: A -> B)
    requires Enabled(s, Run(i)) && s.tasks[i].Mapping? && Conserved(s, source, mapFn)
    ensures Conserved(Next(s, Run(i), limit, mapFn), source, mapFn)
  {
    hide MapAll, MapTasks;
    var n := Next(s, Run(i), limit, mapFn);
    var one := multiset{mapFn(s.tasks[i].item)};
    MapTasksShrink(s.tasks, i, n.tasks[i], mapFn);
    assert multiset(n.buffer) == multiset(s.buffer) + one;
    MoveToBuffer(one, MapAll(s.source, mapFn), MapTasks(n.tasks, mapFn), multiset(s.buffer));
  }

  lemma IdleConserves<A, B>(s: State<A, B>, i: nat, limit: Option<int>, source: seq<A>, mapFn: A -> B)
    requires Enabled(s, Run(i)) && !s.tasks[i].Mapping? && (s.tasks[i].Pulling? ==> s.source == [])
    requires Conserved(s, source, mapFn)
    ensures Conserved(Next(s, Run(i), limit, mapFn), source, mapFn)
  {
    hide MapAll, MapTasks;
    MapTasksUnchanged(s.tasks, i, Next(s, Run(i), limit, mapFn).tasks[i], mapFn);
  }

  lemma StepConserves<A, B>(s: State<A, B>, e: Event, limit: Option<int>, source: seq<A>, mapFn: A -> B)
    requires Enabled(s, e) && Conserved(s, source, mapFn)
    ensures Conserved(Next(s, e, limit, mapFn), source, mapFn)
  {
    hide Conserved, Next;
    match e {
      case Consume(j) => ConsumeConserves(s, j, limit, source, mapFn);
      case Run(i) =>
        if s.tasks[i].Pulling? && s.source != [] {
          PullConserves(s, i, limit, source, mapFn);
        } else if s.tasks[i].Mapping? {
          FinishConserves(s, i, limit, source, mapFn);
        } else {
          IdleConserves(s, i, limit, source, mapFn);
        }
    }
  }

  // ---- permits

  ghost predicate Permits<A, B>(s: State<A, B>, limit: int, pulled: nat) {
    && s.value + Sum(s.tasks, Holding) + |s.buffer| == limit + |s.tasks|
    && (limit + |s.tasks| >= 0 ==> s.value >= 0)
    && pulled == Sum(s.tasks, Working) + |s.buffer| + |s.yielded|
    // no lost wake-up: while a task sleeps, every free permit has a woken task on its way to it
    && (Sum(s.tasks, Asleep) > 0 ==> s.tokens == 0 && s.value <= Sum(s.tasks, Awake))
  }

  lemma UpdateSums<A>(tasks: seq<Task<A>>, i: nat, t: Task<A>)
    requires i < |tasks|
    ensures Sum(tasks[i := t], Holding) + Holding(tasks[i]) == Sum(tasks, Holding) + Holding(t)
    ensures Sum(tasks[i := t], Working) + Working(tasks[i]) == Sum(tasks, Working) + Working(t)
    ensures Sum(tasks[i := t], Asleep) + Asleep(tasks[i]) == Sum(tasks, Asleep) + Asleep(t)
    ensures Sum(tasks[i := t], Awake) + Awake(tasks[i]) == Sum(tasks, Awake) + Awake(t)
  {
    SumUpdate(tasks, i, t, Holding);
    SumUpdate(tasks, i, t, Working);
    SumUpdate(tasks, i, t, Asleep);
    SumUpdate(tasks, i, t, Awake);
  }

  lemma ConsumeKeepsPermits<A, B>(s: State<A, B>, j: nat, limit: int, mapFn: A -> B, pulled: nat)
    requires Enabled(s, Consume(j)) && Permits(s, limit, pulled)
    ensures Permits(Next(s, Consume(j), Some(limit), mapFn), limit, pulled)
  {
    if s.tasks[j].Sleeping? {
      UpdateSums(s.tasks, j, Woken);
    } else {
      SumIsZero(s.tasks, Asleep);
    }
    hide Sum;
  }

  lemma RunKeepsPermits<A, B>(s: State<A, B>, i: nat, limit: int, mapFn: A -> B, pulled: nat)
    requires Enabled(s, Run(i)) && Permits(s, limit, pulled)
    ensures var n := Next(s, Run(i), Some(limit), mapFn);
      |n.source| <= |s.source| && Permits(n, limit, pulled + |s.source| - |n.source|)
  {
    hide Sum;
    UpdateSums(s.tasks, i, Next(s, Run(i), Some(limit), mapFn).tasks[i]);
  }

  lemma StartPermits<A, B>(concurrency: nat, limit: int, source: seq<A>)
    ensures Permits<A, B>(Start(concurrency, Some(limit), source), limit, 0)
  {
    var s: State<A, B> := Start(concurrency, Some(limit), source);
    SumIsZero(s.tasks, Holding);
    SumIsZero(s.tasks, Working);
    SumIsZero(s.tasks, Asleep);
    SumIsZero(s.tasks, Awake);
  }

  // ---- termination

  function Cost<A>(t: Task<A>): nat {
    match t
    case Returned => 0
    case Sleeping => 0
    case Pulling => 1
    case Acquiring => 2
    case Woken => 2
    case Mapping(_) => 6
  }

  function Measure<A, B>(s: State<A, B>): nat {
    6 * |s.source| + Sum(s.tasks, Cost) + 3 * |s.buffer| + s.tokens
  }

  /** Every step uses up work, spurious wake-ups included. */
  lemma StepShrinks<A, B>(s: State<A, B>, e: Event, limit: Option<int>, mapFn: A -> B)
    requires Enabled(s, e)
    ensures Measure(Next(s, e, limit, mapFn)) < Measure(s)
  {
    hide Sum;
    match e {
      case Consume(j) => SumUpdate(s.tasks, j, Woken, Cost);
      case Run(i) => SumUpdate(s.tasks, i, Next(s, e, limit, mapFn).tasks[i], Cost);
    }
  }

  // ---- every run

  ghost predicate Inv<A, B>(s: State<A, B>, limit: Option<int>, source: seq<A>, mapFn: A -> B) {
    && Conserved(s, source, mapFn)
    && (limit.Some? ==> |s.source| <= |source| && Permits(s, limit.value, |source| - |s.source|))
    && ((exists k :: 0 <= k < |s.tasks| && s.tasks[k].Returned?) ==> s.source == [])
    && (limit.None? ==> NobodySleeps(s.tasks))
  }

  lemma StepKeepsInv<A, B>(s: State<A, B>, e: Event, limit: Option<int>, source: seq<A>, mapFn: A -> B)
    requires Enabled(s, e) && Inv(s, limit, source, mapFn)
    ensures Inv(Next(s, e, limit, mapFn), limit, source, mapFn)
    ensures |Next(s, e, limit, mapFn).tasks| == |s.tasks|
  {
    hide Conserved, Permits;
    StepConserves(s, e, limit, source, mapFn);
    if limit.Some? {
      match e {
        case Consume(j) => ConsumeKeepsPermits(s, j, limit.value, mapFn, |source| - |s.source|);
        case Run(i) => RunKeepsPermits(s, i, limit.value, mapFn, |source| - |s.source|);
      }
    }
  }

  lemma StartInv<A, B>(concurrency: nat, limit: Option<int>, source: seq<A>, mapFn: A -> B)
    ensures Inv(Start(concurrency, limit, source), limit, source, mapFn)
  {
    var s: State<A, B> := Start(concurrency, limit, source);
    NothingMapped(s.tasks, mapFn);
    if limit.Some? { StartPermits<A, B>(concurrency, limit.value, source); }
  }

  lemma {:induction false} NothingMapped<A, B>(tasks: seq<Task<A>>, mapFn: A -> B)
    requires forall k :: 0 <= k < |tasks| ==> !tasks[k].Mapping?
    ensures MapTasks(tasks, mapFn) == multiset{}
  {
    if tasks != [] { NothingMapped(tasks[1..], mapFn); }
  }

  lemma {:induction false} RunKeepsInv<A, B>(
      s: State<A, B>, run: seq<Event>, limit: Option<int>, source: seq<A>, mapFn: A -> B)
    requires Inv(s, limit, source, mapFn) && Legal(s, run, limit, mapFn)
    ensures var w := After(s, run, limit, mapFn);
      Inv(w, limit, source, mapFn) && |w.tasks| == |s.tasks| && |run| + Measure(w) <= Measure(s)
    decreases |run|
  {
    if run != [] {
      StepKeepsInv(s, run[0], limit, source, mapFn);
      StepShrinks(s, run[0], limit, mapFn);
      RunKeepsInv(Next(s, run[0], limit, mapFn), run[1..], limit, source, mapFn);
    }
  }

  // ---- order

  /** The item that a step hands to a task. */
  function Taken<A, B>(s: State<A, B>, e: Event, limit: Option<int>, mapFn: A -> B): seq<A>
    requires Enabled(s, e)
  {
    var n := Next(s, e, limit, mapFn);
    if e.Run? && e.task < |n.tasks| && n.tasks[e.task].Mapping? then [n.tasks[e.task].item] else []
  }

  /** The result that a step brings: the mapping function has answered a task. */
  function Answered<A, B>(s: State<A, B>, e: Event, mapFn: A -> B): seq<B>
    requires Enabled(s, e)
  {
    if e.Run? && s.tasks[e.task].Mapping? then [mapFn(s.tasks[e.task].item)] else []
  }

  /** The items that the tasks took in a run, in the order of the steps. */
  function Pulled<A, B>(s: State<A, B>, run: seq<Event>, limit: Option<int>, mapFn: A -> B): seq<A>
    requires Legal(s, run, limit, mapFn)
    decreases |run|
  {
    if run == [] then []
    else Taken(s, run[0], limit, mapFn) + Pulled(Next(s, run[0], limit, mapFn), run[1..], limit, mapFn)
  }

  /** The results that the mapping function answered in a run, in the order in which it did. */
  function Completed<A, B>(s: State<A, B>, run: seq<Event>, limit: Option<int>, mapFn: A -> B): seq<B>
    requires Legal(s, run, limit, mapFn)
    decreases |run|
  {
    if run == [] then []
    else Answered(s, run[0], mapFn) + Completed(Next(s, run[0], limit, mapFn), run[1..], limit, mapFn)
  }

  lemma StepKeepsSourceOrder<A, B>(s: State<A, B>, e: Event, limit: Option<int>, mapFn: A -> B)
    requires Enabled(s, e)
    ensures Taken(s, e, limit, mapFn) + Next(s, e, limit, mapFn).source == s.source
  {
  }

  lemma StepKeepsResultOrder<A, B>(s: State<A, B>, e: Event, limit: Option<int>, mapFn: A -> B)
    requires Enabled(s, e)
    ensures var t := Next(s, e, limit, mapFn);
      t.yielded + t.buffer == s.yielded + s.buffer + Answered(s, e, mapFn)
  {
    if e.Consume? {
      FirstAndRest(s.buffer, []);
      Associative(s.yielded, [s.buffer[0]], s.buffer[1..]);
    } else {
      Associative(s.yielded, s.buffer, Answered(s, e, mapFn));
    }
  }

  /** Items are taken in the order of the source, and results come out in the order in which they were answered. */
  lemma {:induction false} RunKeepsOrder<A, B>(s: State<A, B>, run: seq<Event>, limit: Option<int>, mapFn: A -> B)
    requires Legal(s, run, limit, mapFn)
    ensures var t := After(s, run, limit, mapFn);
      && Pulled(s, run, limit, mapFn) + t.source == s.source
      && t.yielded + t.buffer == s.yielded + s.buffer + Completed(s, run, limit, mapFn)
    decreases |run|
  {
    if run != [] {
      var n, rest := Next(s, run[0], limit, mapFn), run[1..];
      StepKeepsSourceOrder(s, run[0], limit, mapFn);
      StepKeepsResultOrder(s, run[0], limit, mapFn);
      RunKeepsOrder(n, rest, limit, mapFn);
      Associative(Taken(s, run[0], limit, mapFn), Pulled(n, rest, limit, mapFn), After(n, rest, limit, mapFn).source);
      Associative(s.yielded + s.buffer, Answered(s, run[0], mapFn), Completed(n, rest, limit, mapFn));
      hide Enabled, Next, Taken, Answered;
    }
  }

  /** Neither finished nor able to move. */
  ghost predicate Stuck<A, B>(s: State<A, B>) { !Finished(s) && forall e :: !Enabled(s, e) }

  /** With nothing buffered and nobody awake, a sleeper would mean that the returned tasks hold all the permits. */
  lemma NobodyLeftAsleep<A, B>(s: State<A, B>, limit: int, pulled: nat)
    requires Permits(s, limit, pulled) && limit >= 0 && s.buffer == []
    requires forall k :: 0 <= k < |s.tasks| ==> s.tasks[k].Sleeping? || s.tasks[k].Returned?
    ensures NobodySleeps(s.tasks)
  {
    SumIsZero(s.tasks, Awake);
    HoldingOrAsleep(s.tasks);
    assert Sum(s.tasks, Asleep) == 0;
    SumIsZero(s.tasks, Asleep);
  }

  lemma {:induction false} HoldingOrAsleep<A>(tasks: seq<Task<A>>)
    requires forall k :: 0 <= k < |tasks| ==> tasks[k].Sleeping? || tasks[k].Returned?
    ensures Sum(tasks, Holding) + Sum(tasks, Asleep) == |tasks|
  {
    if tasks != [] { HoldingOrAsleep(tasks[1..]); }
  }

  /** With a limit of at least 0, or none, some task or the consumer can always move until everything is finished. */
  lemma NeverStuck<A, B>(s: State<A, B>, limit: Option<int>, source: seq<A>, mapFn: A -> B)
    requires Inv(s, limit, source, mapFn) && (limit.None? || limit.value >= 0) && |s.tasks| > 0
    ensures !Stuck(s)
  {
    hide Conserved, Permits;
    if k :| 0 <= k < |s.tasks| && !s.tasks[k].Sleeping? && !s.tasks[k].Returned? {
      assert Enabled(s, Run(k));
    } else if s.buffer != [] {
      if k :| 0 <= k < |s.tasks| && s.tasks[k].Sleeping? {
        assert Enabled(s, Consume(k));
      } else {
        assert Enabled(s, Consume(0));
      }
    } else if limit.Some? {
      NobodyLeftAsleep(s, limit.value, |source| - |s.source|);
    }
  }

  /** Any schedule of any finite source: the run ends within a fixed number of steps; until it is finished something
      can move; permits bound the items pulled and not consumed; no task sleeps past a free permit; items are taken
      in the order of the source and results leave in the order in which they were answered; and a finished run has
      yielded the mapped items, each once. */
  lemma EveryRun<A, B>(concurrency: nat, limit: Option<int>, source: seq<A>, mapFn: A -> B, run: seq<Event>)
    requires concurrency >= 2 && (limit.Some? ==> limit.value >= 0)
    requires Legal(Start(concurrency, limit, source), run, limit, mapFn)
    ensures var s := After(Start(concurrency, limit, source), run, limit, mapFn);
      && |run| <= 6 * |source| + 2 * concurrency
      && !Stuck(s)
      && (limit.Some? ==> |source| - |s.source| - |s.yielded| <= limit.value + concurrency)
      && (limit.Some? && !NobodySleeps(s.tasks) ==> 0 <= s.value <= Sum(s.tasks, Awake))
      && Pulled(Start(concurrency, limit, source), run, limit, mapFn) + s.source == source
      && s.yielded + s.buffer == Completed(Start(concurrency, limit, source), run, limit, mapFn)
      && (Finished(s) ==> multiset(s.yielded) == MapAll(source, mapFn))
  {
    var start: State<A, B> := Start(concurrency, limit, source);
    FromStart(start, run, limit, mapFn);
    hide Legal, After, Stuck, Conserved, Finished;
    var s := After(start, run, limit, mapFn);
    StartInv(concurrency, limit, source, mapFn);
    RunKeepsInv(start, run, limit, source, mapFn);
    StartMeasure(start.tasks);
    NeverStuck(s, limit, source, mapFn);
    hide Measure, Sum;
    SumIsZero(s.tasks, Asleep);
    WorkingHolds(s.tasks);
    if Finished(s) { FinishedYields(s, limit, source, mapFn); }
  }

  lemma FromStart<A, B>(start: State<A, B>, run: seq<Event>, limit: Option<int>, mapFn: A -> B)
    requires Legal(start, run, limit, mapFn) && start.yielded == start.buffer == []
    ensures var s := After(start, run, limit, mapFn);
      && Pulled(start, run, limit, mapFn) + s.source == start.source
      && s.yielded + s.buffer == Completed(start, run, limit, mapFn)
  {
    RunKeepsOrder(start, run, limit, mapFn);
    hide Legal, After, Pulled, Completed;
    var none: seq<B> := [];
    assert none + none == none && none + Completed(start, run, limit, mapFn) == Completed(start, run, limit, mapFn);
  }

  lemma FinishedYields<A, B>(s: State<A, B>, limit: Option<int>, source: seq<A>, mapFn: A -> B)
    requires Inv(s, limit, source, mapFn) && |s.tasks| > 0 && Finished(s)
    ensures multiset(s.yielded) == MapAll(source, mapFn)
  {
    assert s.tasks[0].Returned?;
    NothingMapped(s.tasks, mapFn);
    var none: multiset<B> := multiset{};
    assert none + none + none + multiset(s.yielded) == multiset(s.yielded);
  }

  lemma {:induction false} StartMeasure<A>(tasks: seq<Task<A>>)
    requires forall k :: 0 <= k < |tasks| ==> tasks[k].Acquiring?
    ensures Sum(tasks, Cost) == 2 * |tasks|
  {
    if tasks != [] { StartMeasure(tasks[1..]); }
  }

  lemma {:induction false} WorkingHolds<A>(tasks: seq<Task<A>>)
    ensures Sum(tasks, Working) <= Sum(tasks, Holding)
  {
    if tasks != [] { WorkingHolds(tasks[1..]); }
  }

  // ---- a limit that is no whole number, and a negative one

  /** The counter is only ever tested for being positive and changed by 1, so a limit that is no whole number acts as
      the next whole number above it. */
  function Ceiling(x: real): int { -(-x).Floor }

  lemma CeilingLaws(x: real, n: int)
    ensures Ceiling(x) > 0 <==> x > 0.0
    ensures Ceiling(x) < 0 <==> x <= -1.0
    ensures Ceiling(x + n as real) == Ceiling(x) + n
  {
    assert (-(x + n as real)).Floor == (-x).Floor - n;
  }

  lemma {:induction false} Extend<A, B>(s: State<A, B>, run: seq<Event>, e: Event, limit: Option<int>, mapFn: A -> B)
    requires Legal(s, run, limit, mapFn) && Enabled(After(s, run, limit, mapFn), e)
    ensures Legal(s, run + [e], limit, mapFn)
    ensures After(s, run + [e], limit, mapFn) == Next(After(s, run, limit, mapFn), e, limit, mapFn)
    decreases |run|
  {
    if run == [] {
      assert run + [e] == [e];
    } else {
      assert (run + [e])[1..] == run[1..] + [e];
      Extend(Next(s, run[0], limit, mapFn), run[1..], e, limit, mapFn);
    }
  }

  /** With `permits` permits on an empty source: the first `ran` tasks have tested the semaphore and the first
      `returned` of them have returned. */
  function Jammed<A, B>(concurrency: nat, permits: nat, value: int, ran: nat, returned: nat): State<A, B> {
    State(
      seq(concurrency, k => if k < returned then Returned else if k >= ran then Acquiring
                            else if k < permits then Pulling else Sleeping),
      value, 0, [], [], [])
  }

  lemma {:induction false} JamAcquire<A, B>(concurrency: nat, limit: int, ran: nat, mapFn: A -> B)
    returns (run: seq<Event>)
    requires ran <= concurrency
    ensures var start: State<A, B> := Start(concurrency, Some(limit), []);
      var permits := if limit + concurrency > 0 then limit + concurrency else 0;
      Legal(start, run, Some(limit), mapFn) && After(start, run, Some(limit), mapFn)
        == Jammed(concurrency, permits, limit + concurrency - (if ran < permits then ran else permits), ran, 0)
  {
    run := [];
    var start: State<A, B> := Start(concurrency, Some(limit), []);
    var permits := if limit + concurrency > 0 then limit + concurrency else 0;
    if ran == 0 {
      assert start == Jammed(concurrency, permits, limit + concurrency, 0, 0);
    } else {
      run := JamAcquire(concurrency, limit, ran - 1, mapFn);
      Extend(start, run, Run(ran - 1), Some(limit), mapFn);
      run := run + [Run(ran - 1)];
      var value := limit + concurrency - if ran < permits then ran else permits;
      assert After(start, run, Some(limit), mapFn).tasks == Jammed<A, B>(concurrency, permits, value, ran, 0).tasks;
    }
  }

  lemma {:induction false} JamReturn<A, B>(concurrency: nat, limit: int, returned: nat, mapFn: A -> B)
    returns (run: seq<Event>)
    requires limit < 0 && (returned == 0 || returned <= limit + concurrency)
    ensures var start: State<A, B> := Start(concurrency, Some(limit), []);
      var permits := if limit + concurrency > 0 then limit + concurrency else 0;
      Legal(start, run, Some(limit), mapFn) && After(start, run, Some(limit), mapFn)
        == Jammed(concurrency, permits, limit + concurrency - permits, concurrency, returned)
  {
    var start: State<A, B> := Start(concurrency, Some(limit), []);
    var permits := if limit + concurrency > 0 then limit + concurrency else 0;
    if returned == 0 {
      run := JamAcquire(concurrency, limit, concurrency, mapFn);
    } else {
      run := JamReturn(concurrency, limit, returned - 1, mapFn);
      Extend(start, run, Run(returned - 1), Some(limit), mapFn);
      run := run + [Run(returned - 1)];
      assert After(start, run, Some(limit), mapFn).tasks
        == Jammed<A, B>(concurrency, permits, limit + concurrency - permits, concurrency, returned).tasks;
    }
  }

  ghost predicate CanJam<A(!new), B>(concurrency: nat, limit: int, mapFn: A -> B) {
    exists source: seq<A>, run: seq<Event> ::
      Legal(Start(concurrency, Some(limit), source), run, Some(limit), mapFn) &&
      Stuck(After(Start(concurrency, Some(limit), source), run, Some(limit), mapFn))
  }

  lemma JamsBelowZero<A(!new), B>(concurrency: nat, limit: int, mapFn: A -> B)
    requires concurrency >= 2
    ensures CanJam(concurrency, limit, mapFn) <==> limit < 0
  {
    if limit < 0 {
      var permits := if limit + concurrency > 0 then limit + concurrency else 0;
      var run := JamReturn(concurrency, limit, permits, mapFn);
      var start: State<A, B> := Start(concurrency, Some(limit), []);
      var s := After(start, run, Some(limit), mapFn);
      assert s.tasks[concurrency - 1].Sleeping?;
      assert Stuck(s);
    } else {
      forall source: seq<A>, run: seq<Event> | Legal(Start(concurrency, Some(limit), source), run, Some(limit), mapFn)
        ensures !Stuck(After(Start(concurrency, Some(limit), source), run, Some(limit), mapFn))
      {
        EveryRun(concurrency, Some(limit), source, mapFn, run);
      }
    }
  }

  /** A mapper that returns keeps its permit, so the iteration can hang exactly when the limit is -1 or less: between -1
      and 0 there are still as many permits as mappers. */
  lemma JamsExactlyWhen<A(!new), B>(concurrency: nat, limit: real, mapFn: A -> B)
    requires concurrency >= 2
    ensures CanJam(concurrency, Ceiling(limit), mapFn) <==> limit <= -1.0
  {
    CeilingLaws(limit, 0);
    JamsBelowZero(concurrency, Ceiling(limit), mapFn);
    hide CanJam, Ceiling;
  }
}
