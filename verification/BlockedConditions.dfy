/** `tryUnblockConditions`: evaluating the blocked conditions until a whole pass unblocks none. Evaluating a condition's
    function may itself change what the functions see. */
module BlockedConditions {
  import opened Sequences

  datatype Outcome<W> = Outcome(resolved: seq<nat>, blocked: seq<nat>, world: W)

  // ---- what one pass, and all of them, do

  /** The conditions in order: those found true are resolved and removed, the others stay. */
  function Pass<W>(blocked: seq<nat>, fn: (nat, W) -> (bool, W), world: W): Outcome<W> {
    if blocked == [] then Outcome([], [], world)
    else
      var last := |blocked| - 1;
      var o := Pass(blocked[..last], fn, world);
      var (found, after) := fn(blocked[last], o.world);
      if found then Outcome(o.resolved + [blocked[last]], o.blocked, after)
      else Outcome(o.resolved, o.blocked + [blocked[last]], after)
  }

  lemma Grows(all: seq<nat>, a: seq<nat>, b: seq<nat>)
    requires all != [] && multiset(a) + multiset(b) == multiset(all[..|all| - 1])
    ensures multiset(a + [all[|all| - 1]]) + multiset(b) == multiset(all)
    ensures multiset(a) + multiset(b + [all[|all| - 1]]) == multiset(all)
  {
    assert all == all[..|all| - 1] + [all[|all| - 1]];
  }

  lemma {:induction false} PassSplits<W>(blocked: seq<nat>, fn: (nat, W) -> (bool, W), world: W)
    ensures var o := Pass(blocked, fn, world);
            multiset(o.resolved) + multiset(o.blocked) == multiset(blocked)
  {
    if blocked != [] {
      var rest := blocked[..|blocked| - 1];
      var o, now := Pass(rest, fn, world), Pass(blocked, fn, world);
      PassSplits(rest, fn, world);
      Grows(blocked, o.resolved, o.blocked);
      PassStep(blocked, fn, world);
      hide Pass;
    }
  }

  lemma PassStep<W>(blocked: seq<nat>, fn: (nat, W) -> (bool, W), world: W)
    requires blocked != []
    ensures var last, o := blocked[|blocked| - 1], Pass(blocked[..|blocked| - 1], fn, world);
            var now := Pass(blocked, fn, world);
            || (now.resolved == o.resolved + [last] && now.blocked == o.blocked)
            || (now.resolved == o.resolved && now.blocked == o.blocked + [last])
  {
  }

  lemma {:induction false} PassKeeps<W>(blocked: seq<nat>, fn: (nat, W) -> (bool, W), world: W)
    requires Pass(blocked, fn, world).resolved == []
    ensures Pass(blocked, fn, world).blocked == blocked
  {
    if blocked != [] {
      PassStep(blocked, fn, world);
      PassKeeps(blocked[..|blocked| - 1], fn, world);
    }
  }

  lemma Sizes(a: seq<nat>, b: seq<nat>, all: seq<nat>)
    requires multiset(a) + multiset(b) == multiset(all)
    ensures |a| + |b| == |all|
  {
    assert |multiset(a) + multiset(b)| == |a| + |b|;
  }

  /** Passes until one resolves nothing. */
  function Passes<W>(blocked: seq<nat>, fn: (nat, W) -> (bool, W), world: W): Outcome<W>
    decreases |blocked|
  {
    var o := Pass(blocked, fn, world);
    PassSplits(blocked, fn, world);
    Sizes(o.resolved, o.blocked, blocked);
    if o.resolved == [] then o
    else
      var rest := Passes(o.blocked, fn, o.world);
      Outcome(o.resolved + rest.resolved, rest.blocked, rest.world)
  }

  lemma Unfold<W>(blocked: seq<nat>, fn: (nat, W) -> (bool, W), world: W)
    ensures var o, all := Pass(blocked, fn, world), Passes(blocked, fn, world);
            if o.resolved == [] then o.blocked == blocked && all == o
            else
              && |o.blocked| < |blocked|
              && all.resolved == o.resolved + Passes(o.blocked, fn, o.world).resolved
              && all.blocked == Passes(o.blocked, fn, o.world).blocked
              && all.world == Passes(o.blocked, fn, o.world).world
  {
    var o := Pass(blocked, fn, world);
    PassSplits(blocked, fn, world);
    Sizes(o.resolved, o.blocked, blocked);
    if o.resolved == [] {
      PassKeeps(blocked, fn, world);
    }
  }

  // ---- what that promises

  /** Every condition that was blocked is resolved once or still blocked, and the last pass found none of these true. */
  lemma {:induction false} EachResolvedOnce<W>(blocked: seq<nat>, fn: (nat, W) -> (bool, W), world: W)
    returns (before: W)
    ensures var o := Passes(blocked, fn, world);
            && multiset(o.resolved) + multiset(o.blocked) == multiset(blocked)
            && |o.resolved| + |o.blocked| == |blocked|
            && Pass(o.blocked, fn, before) == Outcome([], o.blocked, o.world)
    decreases |blocked|
  {
    var o := Pass(blocked, fn, world);
    PassSplits(blocked, fn, world);
    Unfold(blocked, fn, world);
    Sizes(o.resolved, o.blocked, blocked);
    hide Pass, Passes;
    if o.resolved == [] {
      before := world;
    } else {
      before := EachResolvedOnce(o.blocked, fn, o.world);
    }
  }

  /** The functions look and do not touch. */
  ghost predicate Preserving<W(!new)>(fn: (nat, W) -> (bool, W)) { forall c: nat, w: W :: fn(c, w).1 == w }

  /** Of `blocked`, those whose function is, or is not, true. */
  function Where<W>(blocked: seq<nat>, fn: (nat, W) -> (bool, W), world: W, value: bool): seq<nat> {
    if blocked == [] then []
    else
      var last := |blocked| - 1;
      var before := Where(blocked[..last], fn, world, value);
      if fn(blocked[last], world).0 == value then before + [blocked[last]] else before
  }

  lemma {:induction false} PassFilters<W(!new)>(blocked: seq<nat>, fn: (nat, W) -> (bool, W), world: W)
    requires Preserving(fn)
    ensures Pass(blocked, fn, world) ==
            Outcome(Where(blocked, fn, world, true), Where(blocked, fn, world, false), world)
  {
    if blocked != [] {
      PassFilters(blocked[..|blocked| - 1], fn, world);
    }
  }

  lemma {:induction false} WhereIsTrue<W>(blocked: seq<nat>, fn: (nat, W) -> (bool, W), world: W, value: bool)
    ensures forall c :: c in Where(blocked, fn, world, value) <==> c in blocked && fn(c, world).0 == value
  {
    if blocked != [] {
      var last := |blocked| - 1;
      WhereIsTrue(blocked[..last], fn, world, value);
      assert blocked == blocked[..last] + [blocked[last]];
    }
  }

  lemma {:induction false} WhereNone<W>(blocked: seq<nat>, fn: (nat, W) -> (bool, W), world: W, value: bool)
    requires forall c :: c in blocked ==> fn(c, world).0 != value
    ensures Where(blocked, fn, world, value) == []
  {
    if blocked != [] {
      WhereNone(blocked[..|blocked| - 1], fn, world, value);
    }
  }

  /** If no function changes the state, exactly the true conditions are resolved, in order, and none that is true
      stays. */
  lemma NoTrueConditionStays<W(!new)>(blocked: seq<nat>, fn: (nat, W) -> (bool, W), world: W)
    requires Preserving(fn)
    ensures Passes(blocked, fn, world) ==
            Outcome(Where(blocked, fn, world, true), Where(blocked, fn, world, false), world)
    ensures forall c :: c in Passes(blocked, fn, world).blocked ==> !fn(c, world).0
  {
    var stay := Where(blocked, fn, world, false);
    PassFilters(blocked, fn, world);
    PassFilters(stay, fn, world);
    hide Preserving, Where;
    WhereIsTrue(blocked, fn, world, false);
    WhereNone(stay, fn, world, true);
    Unfold(blocked, fn, world);
    Unfold(stay, fn, world);
    hide Pass, Passes;
    assert Where(blocked, fn, world, true) + [] == Where(blocked, fn, world, true);
  }

  // ---- exactly when no true condition stays

  predicate Distinct(cs: seq<nat>) { forall i, j :: 0 <= i < j < |cs| ==> cs[i] != cs[j] }

  /** Whatever distinct conditions are blocked and in whatever state, none is left blocked whose function is true. */
  ghost predicate LeavesNoTrueCondition<W(!new)>(fn: (nat, W) -> (bool, W)) {
    forall cs, w: W | Distinct(cs) :: forall c :: c in Passes(cs, fn, w).blocked ==> !fn(c, Passes(cs, fn, w).world).0
  }

  /** A condition found false is still false after any evaluations of other conditions that find nothing true. */
  ghost predicate StaysFalse<W(!new)>(fn: (nat, W) -> (bool, W)) {
    forall c: nat, ds: seq<nat>, w: W | Distinct([c] + ds) && !fn(c, w).0 && Pass(ds, fn, fn(c, w).1).resolved == [] ::
      !fn(c, Pass(ds, fn, fn(c, w).1).world).0
  }

  /** A pass over two stretches is a pass over the one and then over the other. */
  lemma {:induction false} PassInTwo<W>(a: seq<nat>, b: seq<nat>, fn: (nat, W) -> (bool, W), world: W)
    ensures var o := Pass(a, fn, world);
            var p := Pass(b, fn, o.world);
            Pass(a + b, fn, world) == Outcome(o.resolved + p.resolved, o.blocked + p.blocked, p.world)
  {
    if b == [] {
      assert a + b == a;
    } else {
      hide Pass;
      var init, last := b[..|b| - 1], b[|b| - 1];
      var o := Pass(a, fn, world);
      var p := Pass(init, fn, o.world);
      assert (a + init) + [last] == a + b && init + [last] == b;
      PassInTwo(a, init, fn, world);
      PassMore(a + init, last, fn, world);
      PassMore(init, last, fn, o.world);
      Associative(o.resolved, p.resolved, [last]);
      Associative(o.blocked, p.blocked, [last]);
    }
  }

  lemma PassFirst<W>(c: nat, ds: seq<nat>, fn: (nat, W) -> (bool, W), world: W)
    ensures var p := Pass(ds, fn, fn(c, world).1);
            Pass([c] + ds, fn, world) ==
            if fn(c, world).0 then Outcome([c] + p.resolved, p.blocked, p.world)
            else Outcome(p.resolved, [c] + p.blocked, p.world)
  {
    PassMore([], c, fn, world);
    PassInTwo([c], ds, fn, world);
    assert [] + [c] == [c];
    hide Pass;
  }

  /** If a pass that resolves nothing made one of its own conditions true, the loop would stop there. */
  lemma MustStayFalse<W(!new)>(fn: (nat, W) -> (bool, W), c: nat, ds: seq<nat>, w: W)
    requires LeavesNoTrueCondition(fn)
    requires Distinct([c] + ds) && !fn(c, w).0 && Pass(ds, fn, fn(c, w).1).resolved == []
    ensures !fn(c, Pass(ds, fn, fn(c, w).1).world).0
  {
    PassFirst(c, ds, fn, w);
    Unfold([c] + ds, fn, w);
    hide Pass, Passes;
    assert c in Passes([c] + ds, fn, w).blocked;
  }

  lemma StillFalse<W(!new)>(fn: (nat, W) -> (bool, W), c: nat, ds: seq<nat>, w: W)
    requires StaysFalse(fn) && Distinct([c] + ds) && !fn(c, w).0 && Pass(ds, fn, fn(c, w).1).resolved == []
    ensures !fn(c, Pass(ds, fn, fn(c, w).1).world).0
  {
    hide Pass, Distinct;
  }

  /** In the last pass a condition is found false, and the rest of the pass finds nothing true. */
  lemma FalseAtTheEnd<W(!new)>(fn: (nat, W) -> (bool, W), cs: seq<nat>, k: nat, before: W)
    requires StaysFalse(fn) && Distinct(cs) && k < |cs| && Pass(cs, fn, before).resolved == []
    ensures !fn(cs[k], Pass(cs, fn, before).world).0
  {
    hide StaysFalse, Pass, Distinct;
    var a, c, b, rest := cs[..k], cs[k], cs[k + 1..], cs[k..];
    assert cs == a + rest && rest == [c] + b;
    var w := Pass(a, fn, before).world;
    PassInTwo(a, rest, fn, before);
    PassFirst(c, b, fn, w);
    DistinctFrom(cs, k);
    StillFalse(fn, c, b, w);
  }

  lemma DistinctFrom(cs: seq<nat>, k: nat)
    requires Distinct(cs) && k < |cs|
    ensures Distinct(cs[k..])
  {
  }

  lemma StillDistinct(cs: seq<nat>, resolved: seq<nat>, blocked: seq<nat>)
    requires Distinct(cs) && multiset(resolved) + multiset(blocked) == multiset(cs)
    ensures Distinct(blocked)
  {
    forall i, j | 0 <= i < j < |blocked| ensures blocked[i] != blocked[j] {
      if blocked[i] == blocked[j] {
        Twice(blocked, i, j);
        assert multiset(cs)[blocked[i]] >= 2;
        OnceOnly(cs, blocked[i]);
        assert false;
      }
    }
  }

  lemma Twice(cs: seq<nat>, i: nat, j: nat)
    requires i < j < |cs| && cs[i] == cs[j]
    ensures multiset(cs)[cs[i]] >= 2
  {
    assert cs == cs[..j] + [cs[j]] + cs[j + 1..];
    assert cs[i] in cs[..j];
  }

  lemma {:induction false} OnceOnly(cs: seq<nat>, c: nat)
    requires Distinct(cs)
    ensures multiset(cs)[c] <= 1
  {
    if cs != [] {
      var init, last := cs[..|cs| - 1], cs[|cs| - 1];
      OnceOnly(init, c);
      assert cs == init + [last];
      if last == c {
        assert c !in init;
      }
    }
  }

  /** Whatever the functions do, the loop never leaves a true condition blocked if and only if a condition found false
      stays false until something else is found true. */
  lemma NoTrueConditionStaysExactlyWhen<W(!new)>(fn: (nat, W) -> (bool, W))
    ensures LeavesNoTrueCondition(fn) <==> StaysFalse(fn)
  {
    if LeavesNoTrueCondition(fn) {
      forall c: nat, ds: seq<nat>, w: W | Distinct([c] + ds) && !fn(c, w).0 && Pass(ds, fn, fn(c, w).1).resolved == []
        ensures !fn(c, Pass(ds, fn, fn(c, w).1).world).0
      {
        MustStayFalse(fn, c, ds, w);
      }
    }
    if StaysFalse(fn) {
      forall cs, w: W, c | Distinct(cs) && c in Passes(cs, fn, w).blocked ensures !fn(c, Passes(cs, fn, w).world).0 {
        NoneTrueAtTheEnd(fn, cs, w, c);
      }
    }
  }

  lemma NoneTrueAtTheEnd<W(!new)>(fn: (nat, W) -> (bool, W), cs: seq<nat>, w: W, c: nat)
    requires StaysFalse(fn) && Distinct(cs) && c in Passes(cs, fn, w).blocked
    ensures !fn(c, Passes(cs, fn, w).world).0
  {
    hide StaysFalse, Pass, Passes;
    var o := Passes(cs, fn, w);
    var before := EachResolvedOnce(cs, fn, w);
    StillDistinct(cs, o.resolved, o.blocked);
    var k :| 0 <= k < |o.blocked| && o.blocked[k] == c;
    FalseAtTheEnd(fn, o.blocked, k, before);
  }

  /** A check of pairs is enough: evaluating one false condition makes no false condition true. */
  lemma PairsSuffice<W(!new)>(fn: (nat, W) -> (bool, W))
    requires forall c: nat, d: nat, w: W :: !fn(c, w).0 && !fn(d, w).0 ==> !fn(c, fn(d, w).1).0
    ensures LeavesNoTrueCondition(fn)
  {
    forall c: nat, ds: seq<nat>, w: W | Distinct([c] + ds) && !fn(c, w).0 && Pass(ds, fn, fn(c, w).1).resolved == []
      ensures !fn(c, Pass(ds, fn, fn(c, w).1).world).0
    {
      assert !fn(c, fn(c, w).1).0;
      FalseThrough(fn, c, ds, fn(c, w).1);
    }
    NoTrueConditionStaysExactlyWhen(fn);
  }

  lemma {:induction false} FalseThrough<W(!new)>(fn: (nat, W) -> (bool, W), c: nat, ds: seq<nat>, w: W)
    requires forall c: nat, d: nat, w: W :: !fn(c, w).0 && !fn(d, w).0 ==> !fn(c, fn(d, w).1).0
    requires !fn(c, w).0 && Pass(ds, fn, w).resolved == []
    ensures !fn(c, Pass(ds, fn, w).world).0
  {
    if ds != [] {
      FalseThrough(fn, c, ds[..|ds| - 1], w);
    }
  }

  /** The first function tells whether the second one was ever evaluated. */
  function Peeking(c: nat, seen: bool): (bool, bool) { (c == 0 && seen, seen || c == 1) }

  lemma PassMore<W>(blocked: seq<nat>, c: nat, fn: (nat, W) -> (bool, W), world: W)
    ensures Pass([], fn, world) == Outcome([], [], world)
    ensures var o := Pass(blocked, fn, world);
            Pass(blocked + [c], fn, world) ==
            if fn(c, o.world).0 then Outcome(o.resolved + [c], o.blocked, fn(c, o.world).1)
            else Outcome(o.resolved, o.blocked + [c], fn(c, o.world).1)
  {
    assert (blocked + [c])[..|blocked|] == blocked;
  }

  /** A function that does change it can leave a true condition blocked. */
  lemma TrueConditionMayStay()
    ensures Passes([0, 1], Peeking, false) == Outcome([], [0, 1], true) && Peeking(0, true).0
  {
    PassMore([], 0, Peeking, false);
    PassMore([] + [0], 1, Peeking, false);
    Unfold([] + [0] + [1], Peeking, false);
    assert [] + [0] + [1] == [0, 1];
    hide Pass, Passes;
  }

  // ---- the loop

  class ConditionTable<W> {
    const fn: (nat, W) -> (bool, W)
    var world: W
    /** In the order of insertion, which is the order of iteration. */
    var blockedConditions: seq<nat>
    var resolved: seq<nat>

    constructor (fn: (nat, W) -> (bool, W), world: W, conditions: seq<nat>)
      ensures this.fn == fn && this.world == world && blockedConditions == conditions && resolved == []
    {
      this.fn, this.world, blockedConditions, resolved := fn, world, conditions, [];
    }

    method TryUnblockConditions() returns (numUnblocked: nat)
      modifies this
      ensures var o := Passes(old(blockedConditions), fn, old(world));
              && resolved == old(resolved) + o.resolved && blockedConditions == o.blocked && world == o.world
              && numUnblocked == |o.resolved|
    {
      hide Pass, Passes;
      numUnblocked := 0;
      ghost var done := [];
      while true
        invariant resolved == old(resolved) + done && numUnblocked == |done|
        invariant var o, rest := Passes(old(blockedConditions), fn, old(world)), Passes(blockedConditions, fn, world);
                  o == Outcome(done + rest.resolved, rest.blocked, rest.world)
        decreases |blockedConditions|
      {
        var prevUnblocked := numUnblocked;
        ghost var now := Pass(blockedConditions, fn, world);
        Unfold(blockedConditions, fn, world);
        ghost var rest := Passes(now.blocked, fn, now.world).resolved;
        assert (done + now.resolved) + rest == done + (now.resolved + rest);
        numUnblocked := OnePass(numUnblocked);
        if prevUnblocked == numUnblocked {
          break;
        }
        done := done + now.resolved;
      }
    }

    /** The inner loop: an entry that is deleted is not visited again, and the next one takes its place. */
    method OnePass(unblocked: nat) returns (numUnblocked: nat)
      modifies this
      ensures var o := Pass(old(blockedConditions), fn, old(world));
              && resolved == old(resolved) + o.resolved && blockedConditions == o.blocked && world == o.world
              && numUnblocked == unblocked + |o.resolved|
    {
      hide Pass;
      numUnblocked := unblocked;
      var i := 0;
      ghost var all, seen := blockedConditions, 0;
      PassMore([], 0, fn, world);
      while i < |blockedConditions|
        invariant seen <= |all| && i <= |blockedConditions| && blockedConditions[i..] == all[seen..]
        invariant var o := Pass(all[..seen], fn, old(world));
                  && resolved == old(resolved) + o.resolved && blockedConditions[..i] == o.blocked && world == o.world
                  && numUnblocked == unblocked + |o.resolved|
        decreases |blockedConditions| - i
      {
        var c := blockedConditions[i];
        assert c == all[seen] && all[..seen + 1] == all[..seen] + [c];
        PassMore(all[..seen], c, fn, old(world));
        var (found, after) := fn(c, world);
        world := after;
        if found {
          resolved := resolved + [c];
          numUnblocked := numUnblocked + 1;
          blockedConditions := blockedConditions[..i] + blockedConditions[i + 1..];
        } else {
          i := i + 1;
        }
        seen := seen + 1;
      }
      assert all[..seen] == all;
      assert blockedConditions[..i] == blockedConditions;
    }
  }
}
