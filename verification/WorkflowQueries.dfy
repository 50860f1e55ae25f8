/** The queries of a workflow (packages/workflow/src/internals.ts): buffered until the workflow function has been
    called, then handed over one by one, each to be answered by a later callback. */
module WorkflowQueries {
  /** `converts`: it has a type and an id, and its arguments can be read; handing over any other query throws. */
  datatype Delivery = Delivery(id: nat, converts: bool)

  /** `called`: the workflow function has been called. `pending`: handlers that were called and whose answer is a
      callback still to come. `dropped`: queries that were lost to a throw. */
  datatype Queries = Queries(
    called: bool, buffered: seq<Delivery>, pending: multiset<nat>, answered: multiset<nat>, dropped: multiset<nat>)

  const NO_QUERIES := Queries(false, [], multiset{}, multiset{}, multiset{})

  function Ids(deliveries: seq<Delivery>): seq<nat> {
    seq(|deliveries|, k requires 0 <= k < |deliveries| => deliveries[k].id)
  }

  /** How many are handed over before one throws. */
  function Good(deliveries: seq<Delivery>): (n: nat)
    ensures n <= |deliveries|
  {
    if deliveries == [] || !deliveries[0].converts then 0 else 1 + Good(deliveries[1..])
  }

  function Delivered(q: Queries, d: Delivery): Queries {
    if !q.called then q.(buffered := q.buffered + [d])
    else if d.converts then q.(pending := q.pending + multiset{d.id})
    else q.(dropped := q.dropped + multiset{d.id})
  }

  /** The first query that throws takes all that follow it with it. */
  function Called(q: Queries): Queries {
    var n := Good(q.buffered);
    Queries(true, [], q.pending + multiset(Ids(q.buffered[..n])), q.answered,
            q.dropped + multiset(Ids(q.buffered[n..])))
  }

  function Answered(q: Queries, id: nat): Queries {
    q.(pending := q.pending - multiset{id}, answered := q.answered + multiset{id})
  }

  function AnswerThrew(q: Queries, id: nat): Queries {
    q.(pending := q.pending - multiset{id})
  }

  // ---- nothing is lost unaccounted

  /** How often a query is buffered, waits for its answer, was answered or was dropped. */
  function Known(q: Queries, id: nat): nat {
    multiset(Ids(q.buffered))[id] + q.pending[id] + q.answered[id] + q.dropped[id]
  }

  lemma IdsConcat(a: seq<Delivery>, b: seq<Delivery>)
    ensures multiset(Ids(a + b)) == multiset(Ids(a)) + multiset(Ids(b))
  {
    assert Ids(a + b) == Ids(a) + Ids(b);
  }

  lemma DeliveryIsKnown(q: Queries, d: Delivery, id: nat)
    ensures Known(Delivered(q, d), id) == Known(q, id) + if d.id == id then 1 else 0
  {
    IdsConcat(q.buffered, [d]);
    assert Ids([d]) == [d.id];
    hide Ids;
  }

  lemma CallIsKnown(q: Queries, id: nat)
    ensures Known(Called(q), id) == Known(q, id)
  {
    var n := Good(q.buffered);
    assert q.buffered == q.buffered[..n] + q.buffered[n..];
    IdsConcat(q.buffered[..n], q.buffered[n..]);
    assert Ids([]) == [];
    hide Ids, Good;
  }

  lemma AnswerIsKnown(q: Queries, answered: nat, id: nat)
    requires answered in q.pending
    ensures Known(Answered(q, answered), id) == Known(q, id)
    ensures Known(AnswerThrew(q, answered), id) + (if answered == id then 1 else 0) == Known(q, id)
  {
    hide Ids;
  }

  // ---- exactly when a query is dropped

  /** A query has thrown, or will when the buffer is handed over. */
  ghost predicate Drops(q: Queries) {
    q.dropped != multiset{} || exists k :: 0 <= k < |q.buffered| && !q.buffered[k].converts
  }

  /** Whatever stands before the first one that throws does not throw, and that one does. */
  lemma {:induction false} GoodIsFirst(deliveries: seq<Delivery>)
    ensures forall k :: 0 <= k < Good(deliveries) ==> deliveries[k].converts
    ensures Good(deliveries) < |deliveries| ==> !deliveries[Good(deliveries)].converts
  {
    if deliveries != [] && deliveries[0].converts {
      GoodIsFirst(deliveries[1..]);
      assert forall k :: 0 < k < Good(deliveries) ==> deliveries[k] == deliveries[1..][k - 1];
    }
  }

  lemma NoIds(deliveries: seq<Delivery>)
    ensures Ids(deliveries[..0]) == []
  {
  }

  lemma OneMoreId(deliveries: seq<Delivery>, k: nat)
    requires k < |deliveries|
    ensures multiset(Ids(deliveries[..k + 1])) == multiset(Ids(deliveries[..k])) + multiset{deliveries[k].id}
  {
    IdsConcat(deliveries[..k], [deliveries[k]]);
    assert deliveries[..k + 1] == deliveries[..k] + [deliveries[k]];
    assert Ids([deliveries[k]]) == [deliveries[k].id];
    hide Ids;
  }

  lemma DeliveryDrops(q: Queries, d: Delivery)
    ensures Drops(Delivered(q, d)) <==> Drops(q) || !d.converts
  {
    var more := q.buffered + [d];
    assert more[|q.buffered|] == d;
    assert forall k :: 0 <= k < |q.buffered| ==> more[k] == q.buffered[k];
  }

  lemma CallDrops(q: Queries)
    ensures Drops(Called(q)) <==> Drops(q)
  {
    GoodIsFirst(q.buffered);
    var rest := q.buffered[Good(q.buffered)..];
    assert |multiset(Ids(rest))| == |rest|;
    hide Good, Ids;
  }
}
