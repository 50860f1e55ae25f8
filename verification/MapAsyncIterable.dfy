/** The same mapper as an object whose fields the tasks and the consumer share. Each method is what runs between two
    awaits and is shown to be one step of `BoundedMapper`, so that its theorems hold of the fields. */
module MapAsyncIterable {
  import opened Wrappers
  import opened BoundedMapper

  /** Without concurrency: one item after the other, in order. */
  method MapSequentially<A, B>(source: seq<A>, mapFn: A -> B) returns (yielded: seq<B>)
    ensures |yielded| == |source| && forall k :: 0 <= k < |source| ==> yielded[k] == mapFn(source[k])
  {
    yielded := [];
    for i := 0 to |source|
      invariant |yielded| == i && forall k :: 0 <= k < i ==> yielded[k] == mapFn(source[k])
    {
      yielded := yielded + [mapFn(source[i])];
    }
  }

  class Mapper<A, B> {
    const mapFn: A -> B
    const bufferLimit: Option<real>
    const concurrency: nat
    /** The semaphore's counter and the release events that no task has taken. */
    var value: real
    var released: nat
    /** Where each mapper task is suspended. */
    var tasks: seq<Task<A>>
    var source: seq<A>
    var results: seq<B>
    var yielded: seq<B>

    /** The limit as the state machine has it. */
    function Limit(): Option<int> { if bufferLimit.Some? then Some(Ceiling(bufferLimit.value)) else None }

    ghost function Contents(): State<A, B>
      reads this
    {
      State(tasks, Ceiling(value), released, source, results, yielded)
    }

    constructor (source: seq<A>, mapFn: A -> B, concurrency: nat, bufferLimit: Option<real>)
      ensures this.mapFn == mapFn && this.bufferLimit == bufferLimit && this.concurrency == concurrency
      ensures Contents() == Start(concurrency, Limit(), source)
    {
      this.mapFn, this.bufferLimit, this.concurrency, this.source := mapFn, bufferLimit, concurrency, source;
      value := if bufferLimit.Some? then bufferLimit.value + concurrency as real else 0.0;
      if bufferLimit.Some? {
        CeilingLaws(bufferLimit.value, concurrency);
      }
      released, tasks, results, yielded := 0, seq(concurrency, _ => Acquiring), [], [];
    }

    /** `acquire`, when task `i` starts it or is woken in it: the counter is tested again after every release event. */
    method Acquire(i: nat)
      requires i < |tasks| && (tasks[i].Acquiring? || tasks[i].Woken?)
      modifies this
      ensures Contents() == Next(old(Contents()), Run(i), Limit(), mapFn)
    {
      CeilingLaws(value, -1);
      if bufferLimit.None? {
        tasks := tasks[i := Pulling];
      } else if value <= 0.0 {
        if released > 0 {
          released := released - 1;
          tasks := tasks[i := Woken];
        } else {
          tasks := tasks[i := Sleeping];
        }
      } else {
        value := value - 1.0;
        tasks := tasks[i := Pulling];
      }
    }

    /** `sourceIterator.next()` answers task `i`. */
    method Receive(i: nat)
      requires i < |tasks| && tasks[i].Pulling?
      modifies this
      ensures Contents() == Next(old(Contents()), Run(i), Limit(), mapFn)
    {
      if source == [] {
        tasks := tasks[i := Returned];
        return;
      }
      var val := source[0];
      source := source[1..];
      tasks := tasks[i := Mapping(val)];
    }

    /** The mapping function has answered task `i`. */
    method EmitResult(i: nat)
      requires i < |tasks| && tasks[i].Mapping?
      modifies this
      ensures Contents() == Next(old(Contents()), Run(i), Limit(), mapFn)
    {
      results := results + [mapFn(tasks[i].item)];
      tasks := tasks[i := Acquiring];
    }

    /** The consuming loop takes a result; the release wakes the sleeper `wake`, if there is one. */
    method Yield(wake: nat) returns (res: B)
      requires Enabled(Contents(), Consume(wake))
      modifies this
      ensures Contents() == Next(old(Contents()), Consume(wake), Limit(), mapFn)
      ensures res == old(results[0]) && yielded == old(yielded) + [res]
    {
      CeilingLaws(value, 1);
      res := results[0];
      results := results[1..];
      if bufferLimit.Some? {
        Release(wake);
      }
      yielded := yielded + [res];
    }

    method Release(wake: nat)
      requires wake < |tasks|
      modifies `value, `tasks, `released
      ensures value == old(value) + 1.0
      ensures if old(tasks[wake]).Sleeping? then tasks == old(tasks)[wake := Woken] && released == old(released)
              else tasks == old(tasks) && released == old(released) + 1
    {
      value := value + 1.0;
      if tasks[wake].Sleeping? {
        tasks := tasks[wake := Woken];
      } else {
        released := released + 1;
      }
    }
  }
}
