/**
 * The effect scheduler `_GameStateType` (core.py:430-468).
 *
 * Effects are modelled by what the scheduler can observe of them: a `CompositeEffect` is a
 * list of parts, and every other effect is a script that answers "still pending" to
 * `on_step` a given number of times and then finishes, submitting a list of new effects
 * from inside its last step (as `NormalAttack` submits an `AttackEffect`). The calls the
 * scheduler makes are recorded: `started` lists the ids whose `on_start` ran, `stepped` the
 * ids whose `on_step` ran, in call order.
 */
module Scheduler {

  import opened Util

  datatype Effect = Composite(parts: seq<Effect>) | Single(leaf: Leaf)

  /** A queued effect: `pending` more steps answer True, the next one finishes and submits `spawn`. */
  datatype Leaf = Leaf(id: nat, pending: nat, spawn: seq<Effect>)

  // ---------------------------------------------------------------------------
  // Flattening of composites (the recursion of `add_effect`)
  // ---------------------------------------------------------------------------

  function FlattenOne(e: Effect): seq<Leaf>
    decreases e
  {
    match e
    case Single(l) => [l]
    case Composite(ps) => Flatten(ps)
  }

  /** The leaves of a list of effects, left to right, composites expanded recursively. */
  function Flatten(es: seq<Effect>): seq<Leaf>
    decreases es
  {
    if es == [] then [] else Flatten(es[..|es| - 1]) + FlattenOne(es[|es| - 1])
  }

  function Ids(q: seq<Leaf>): seq<nat>
  {
    if q == [] then [] else [q[0].id] + Ids(q[1..])
  }

  lemma {:induction false} IdsAppend(a: seq<Leaf>, b: seq<Leaf>)
    ensures Ids(a + b) == Ids(a) + Ids(b)
    decreases |a|
  {
    if a != [] {
      assert (a + b)[1..] == a[1..] + b;
      IdsAppend(a[1..], b);
    } else {
      assert a + b == b;
    }
  }

  lemma {:induction false} FlattenAppend(a: seq<Effect>, b: seq<Effect>)
    ensures Flatten(a + b) == Flatten(a) + Flatten(b)
    decreases |b|
  {
    if b != [] {
      var c := a + b;
      assert c[..|c| - 1] == a + b[..|b| - 1];
      FlattenAppend(a, b[..|b| - 1]);
    } else {
      assert a + b == a;
    }
  }

  lemma FlattenSnoc(ps: seq<Effect>, i: nat)
    requires i < |ps|
    ensures Flatten(ps[..i + 1]) == Flatten(ps[..i]) + FlattenOne(ps[i])
  {
    assert ps[..i + 1][..i] == ps[..i];
  }

  /** Number of non-composite effects in a tree of effects. */
  function LeafCount(e: Effect): nat
    decreases e
  {
    match e
    case Single(_) => 1
    case Composite(ps) => LeafCountAll(ps)
  }

  function LeafCountAll(es: seq<Effect>): nat
    decreases es
  {
    if es == [] then 0 else LeafCountAll(es[..|es| - 1]) + LeafCount(es[|es| - 1])
  }

  /** A composite is never queued: submitting an effect queues exactly its leaves. */
  lemma {:induction false} FlattenCountsLeaves(es: seq<Effect>)
    ensures |Flatten(es)| == LeafCountAll(es)
    decreases es
  {
    if es != [] {
      FlattenCountsLeaves(es[..|es| - 1]);
      match es[|es| - 1]
      case Single(_) =>
      case Composite(ps) => FlattenCountsLeaves(ps);
    }
  }

  // ---------------------------------------------------------------------------
  // Sizes, for termination of the tick
  // ---------------------------------------------------------------------------

  function Size(e: Effect): nat
    decreases e
  {
    match e
    case Single(l) => LeafSize(l)
    case Composite(ps) => 1 + SizeAll(ps)
  }

  function LeafSize(l: Leaf): nat
    decreases l
  {
    1 + SizeAll(l.spawn)
  }

  function SizeAll(es: seq<Effect>): nat
    decreases es
  {
    if es == [] then 0 else SizeAll(es[..|es| - 1]) + Size(es[|es| - 1])
  }

  function Weight(q: seq<Leaf>): nat
  {
    if q == [] then 0 else LeafSize(q[0]) + Weight(q[1..])
  }

  lemma {:induction false} WeightAppend(a: seq<Leaf>, b: seq<Leaf>)
    ensures Weight(a + b) == Weight(a) + Weight(b)
    decreases |a|
  {
    if a != [] {
      assert (a + b)[1..] == a[1..] + b;
      WeightAppend(a[1..], b);
    } else {
      assert a + b == b;
    }
  }

  lemma {:induction false} FlattenWeight(es: seq<Effect>)
    ensures Weight(Flatten(es)) <= SizeAll(es)
    decreases es
  {
    if es != [] {
      var front, last := es[..|es| - 1], es[|es| - 1];
      FlattenWeight(front);
      WeightAppend(Flatten(front), FlattenOne(last));
      match last
      case Single(l) =>
        assert [l][1..] == [];
      case Composite(ps) => FlattenWeight(ps);
    }
  }

  /** Finishing the first queued effect and queueing what it submits makes the queue lighter. */
  lemma FinishLighter(q: seq<Leaf>)
    requires q != []
    ensures Weight(q[1..] + Flatten(q[0].spawn)) < Weight(q)
  {
    WeightAppend(q[1..], Flatten(q[0].spawn));
    FlattenWeight(q[0].spawn);
  }

  // ---------------------------------------------------------------------------
  // One tick, as a function
  // ---------------------------------------------------------------------------

  /** What one call of `judge` does: steps, effects deferred to the next tick, `on_start` calls. */
  datatype Outcome = Outcome(stepped: seq<nat>, kept: seq<Leaf>, started: seq<nat>)

  /** An effect that answered True, as it stands after its step. */
  function Stepped(l: Leaf): Leaf
    requires l.pending > 0
  {
    l.(pending := l.pending - 1)
  }

  /**
   * The queue drained first-in first-out: a pending effect is deferred, a finishing one has
   * its submissions appended to the queue being drained.
   */
  function Drain(q: seq<Leaf>): (r: Outcome)
    ensures |q| <= |r.stepped| && |r.kept| <= |r.stepped|
    decreases Weight(q)
  {
    if q == [] then Outcome([], [], [])
    else if q[0].pending > 0 then
      var rest := Drain(q[1..]);
      Outcome([q[0].id] + rest.stepped, [Stepped(q[0])] + rest.kept, rest.started)
    else
      var born := Flatten(q[0].spawn);
      FinishLighter(q);
      var rest := Drain(q[1..] + born);
      Outcome([q[0].id] + rest.stepped, rest.kept, Ids(born) + rest.started)
  }

  lemma DrainPendingHead(q: seq<Leaf>)
    requires q != [] && q[0].pending > 0
    ensures Drain(q).stepped == [q[0].id] + Drain(q[1..]).stepped
    ensures Drain(q).kept == [Stepped(q[0])] + Drain(q[1..]).kept
    ensures Drain(q).started == Drain(q[1..]).started
  {
  }

  lemma DrainFinishHead(q: seq<Leaf>)
    requires q != [] && q[0].pending == 0
    ensures Drain(q).stepped == [q[0].id] + Drain(q[1..] + Flatten(q[0].spawn)).stepped
    ensures Drain(q).kept == Drain(q[1..] + Flatten(q[0].spawn)).kept
    ensures Drain(q).started == Ids(Flatten(q[0].spawn)) + Drain(q[1..] + Flatten(q[0].spawn)).started
  {
  }

  /** The effects of q that answer True, in their order, after their step. */
  function Defer(q: seq<Leaf>): seq<Leaf>
  {
    if q == [] then []
    else if q[0].pending > 0 then [Stepped(q[0])] + Defer(q[1..])
    else Defer(q[1..])
  }

  /** The effects submitted by the effects of q that finish, in submission order. */
  function Spawned(q: seq<Leaf>): seq<Leaf>
  {
    if q == [] then []
    else if q[0].pending > 0 then Spawned(q[1..])
    else Flatten(q[0].spawn) + Spawned(q[1..])
  }

  /**
   * Draining a + b steps a first, in order, then what is left: b followed by everything a
   * submitted.
   */
  lemma {:induction false} DrainSplit(a: seq<Leaf>, b: seq<Leaf>)
    ensures Drain(a + b).stepped == Ids(a) + Drain(b + Spawned(a)).stepped
    ensures Drain(a + b).kept == Defer(a) + Drain(b + Spawned(a)).kept
    ensures Drain(a + b).started == Ids(Spawned(a)) + Drain(b + Spawned(a)).started
    decreases |a|
  {
    if a == [] {
      var d := Drain(b);
      EmptyPrefix(b);
      EmptySuffix(b);
      EmptyPrefix(d.stepped);
      EmptyPrefix(d.kept);
      EmptyPrefix(d.started);
    } else if a[0].pending > 0 {
      DrainSplit(a[1..], b);
      SplitPending(a, b);
    } else {
      var f := Flatten(a[0].spawn);
      DrainSplit(a[1..], b + f);
      SplitFinish(a, b);
    }
  }

  lemma SplitPending(a: seq<Leaf>, b: seq<Leaf>)
    requires a != [] && a[0].pending > 0
    requires Drain(a[1..] + b).stepped == Ids(a[1..]) + Drain(b + Spawned(a[1..])).stepped
    requires Drain(a[1..] + b).kept == Defer(a[1..]) + Drain(b + Spawned(a[1..])).kept
    requires Drain(a[1..] + b).started == Ids(Spawned(a[1..])) + Drain(b + Spawned(a[1..])).started
    ensures Drain(a + b).stepped == Ids(a) + Drain(b + Spawned(a)).stepped
    ensures Drain(a + b).kept == Defer(a) + Drain(b + Spawned(a)).kept
    ensures Drain(a + b).started == Ids(Spawned(a)) + Drain(b + Spawned(a)).started
  {
    UnfoldPending(a, b);
    var d := Drain(b + Spawned(a[1..]));
    Assoc([a[0].id], Ids(a[1..]), d.stepped);
    Assoc([Stepped(a[0])], Defer(a[1..]), d.kept);
  }

  lemma UnfoldPending(a: seq<Leaf>, b: seq<Leaf>)
    requires a != [] && a[0].pending > 0
    ensures Drain(a + b).stepped == [a[0].id] + Drain(a[1..] + b).stepped
    ensures Drain(a + b).kept == [Stepped(a[0])] + Drain(a[1..] + b).kept
    ensures Drain(a + b).started == Drain(a[1..] + b).started
    ensures Spawned(a) == Spawned(a[1..]) && Ids(a) == [a[0].id] + Ids(a[1..]) && Defer(a) == [Stepped(a[0])] + Defer(a[1..])
  {
    assert (a + b)[0] == a[0] && (a + b)[1..] == a[1..] + b;
  }

  lemma SplitFinish(a: seq<Leaf>, b: seq<Leaf>)
    requires a != [] && a[0].pending == 0
    requires var f := Flatten(a[0].spawn);
             Drain(a[1..] + (b + f)).stepped == Ids(a[1..]) + Drain(b + f + Spawned(a[1..])).stepped
    requires var f := Flatten(a[0].spawn);
             Drain(a[1..] + (b + f)).kept == Defer(a[1..]) + Drain(b + f + Spawned(a[1..])).kept
    requires var f := Flatten(a[0].spawn);
             Drain(a[1..] + (b + f)).started == Ids(Spawned(a[1..])) + Drain(b + f + Spawned(a[1..])).started
    ensures Drain(a + b).stepped == Ids(a) + Drain(b + Spawned(a)).stepped
    ensures Drain(a + b).kept == Defer(a) + Drain(b + Spawned(a)).kept
    ensures Drain(a + b).started == Ids(Spawned(a)) + Drain(b + Spawned(a)).started
  {
    var f := Flatten(a[0].spawn);
    UnfoldFinish(a, b);
    UnfoldFinishParts(a, b);
    var d := Drain(b + Spawned(a));
    IdsAppend(f, Spawned(a[1..]));
    Assoc([a[0].id], Ids(a[1..]), d.stepped);
    Assoc(Ids(f), Ids(Spawned(a[1..])), d.started);
  }

  lemma UnfoldFinish(a: seq<Leaf>, b: seq<Leaf>)
    requires a != [] && a[0].pending == 0
    ensures var f := Flatten(a[0].spawn);
            Drain(a + b).stepped == [a[0].id] + Drain(a[1..] + (b + f)).stepped
    ensures var f := Flatten(a[0].spawn);
            Drain(a + b).kept == Drain(a[1..] + (b + f)).kept
    ensures var f := Flatten(a[0].spawn);
            Drain(a + b).started == Ids(f) + Drain(a[1..] + (b + f)).started
  {
    var f := Flatten(a[0].spawn);
    assert (a + b)[1..] + f == a[1..] + (b + f) by {
      assert (a + b)[1..] == a[1..] + b;
    }
    assert (a + b)[0] == a[0];
    DrainFinishHead(a + b);
  }

  lemma UnfoldFinishParts(a: seq<Leaf>, b: seq<Leaf>)
    requires a != [] && a[0].pending == 0
    ensures Spawned(a) == Flatten(a[0].spawn) + Spawned(a[1..]) && Ids(a) == [a[0].id] + Ids(a[1..]) && Defer(a) == Defer(a[1..])
    ensures b + Flatten(a[0].spawn) + Spawned(a[1..]) == b + Spawned(a)
  {
    Assoc(b, Flatten(a[0].spawn), Spawned(a[1..]));
  }

  /**
   * One tick in generations: every queued effect is stepped once, in queue order, before any
   * effect submitted during the tick; the deferred ones keep their relative order; and the
   * submitted effects are themselves drained in the same tick.
   */
  lemma Generations(q: seq<Leaf>)
    ensures Drain(q).stepped == Ids(q) + Drain(Spawned(q)).stepped
    ensures Drain(q).kept == Defer(q) + Drain(Spawned(q)).kept
    ensures Drain(q).started == Ids(Spawned(q)) + Drain(Spawned(q)).started
  {
    DrainSplit(q, []);
    assert q + [] == q && [] + Spawned(q) == Spawned(q);
  }

  lemma {:induction false} DeferOnly(q: seq<Leaf>)
    requires Spawned(q) == []
    ensures Drain(q).stepped == Ids(q) && Drain(q).kept == Defer(q) && Drain(q).started == []
    decreases |q|
  {
    Generations(q);
    assert Drain([]) == Outcome([], [], []);
    assert Ids(q) + [] == Ids(q) && Defer(q) + [] == Defer(q);
  }

  /** The effects deferred from q are exactly those that answered True, each one step further. */
  lemma {:induction false} DeferFacts(q: seq<Leaf>)
    ensures |Defer(q)| <= |q|
    ensures forall l <- Defer(q) :: exists k :: 0 <= k < |q| && q[k].pending > 0 && l == Stepped(q[k])
    ensures forall k :: 0 <= k < |q| && q[k].pending > 0 ==> Stepped(q[k]) in Defer(q)
    decreases |q|
  {
    if q != [] {
      DeferFacts(q[1..]);
      forall l <- Defer(q) ensures exists k :: 0 <= k < |q| && q[k].pending > 0 && l == Stepped(q[k]) {
        if l !in Defer(q[1..]) {
          assert l == Stepped(q[0]);
        } else {
          var k :| 0 <= k < |q[1..]| && q[1..][k].pending > 0 && l == Stepped(q[1..][k]);
          assert q[k + 1] == q[1..][k];
        }
      }
      forall k | 0 <= k < |q| && q[k].pending > 0 ensures Stepped(q[k]) in Defer(q) {
        if k > 0 {
          assert q[k] == q[1..][k - 1];
        }
      }
    }
  }

  // ---------------------------------------------------------------------------
  // The scheduler object
  // ---------------------------------------------------------------------------

  class GameState {
    /** `_effect_loop`, the queue `judge` drains. */
    var loop: seq<Leaf>
    /** `_effect_loop_cache`, the spare queue deferred effects go to. */
    var cache: seq<Leaf>
    var started: seq<nat>
    var stepped: seq<nat>

    constructor ()
      ensures loop == [] && cache == [] && started == [] && stepped == []
    {
      loop, cache, started, stepped := [], [], [], [];
    }

    /** Between ticks the spare queue is empty. */
    predicate Idle()
      reads this
    {
      cache == []
    }

    /**
     * `add_effect`: a composite is expanded part by part; every other effect is appended to
     * the current queue and its `on_start` runs at once.
     */
    method AddEffect(e: Effect)
      modifies this
      ensures loop == old(loop) + FlattenOne(e)
      ensures started == old(started) + Ids(FlattenOne(e))
      ensures cache == old(cache) && stepped == old(stepped)
      decreases e
    {
      match e
      case Single(l) =>
        loop := loop + [l];
        started := started + [l.id];
      case Composite(ps) =>
        for i := 0 to |ps|
          invariant loop == old(loop) + Flatten(ps[..i])
          invariant started == old(started) + Ids(Flatten(ps[..i]))
          invariant cache == old(cache) && stepped == old(stepped)
        {
          FlattenSnoc(ps, i);
          IdsAppend(Flatten(ps[..i]), FlattenOne(ps[i]));
          Assoc(old(loop), Flatten(ps[..i]), FlattenOne(ps[i]));
          Assoc(old(started), Ids(Flatten(ps[..i])), Ids(FlattenOne(ps[i])));
          AddEffect(ps[i]);
        }
        assert ps[..|ps|] == ps;
    }

    /** `Effect.on_step` of the scripted effect l, which `judge` has just popped. */
    method Step(l: Leaf)
      modifies this
      ensures stepped == old(stepped) + [l.id]
      ensures l.pending > 0 ==> cache == old(cache) + [Stepped(l)] && loop == old(loop) && started == old(started)
      ensures l.pending == 0 ==> cache == old(cache) && loop == old(loop) + Flatten(l.spawn)
      ensures l.pending == 0 ==> started == old(started) + Ids(Flatten(l.spawn))
    {
      stepped := stepped + [l.id];
      if l.pending > 0 {
        cache := cache + [Stepped(l)];
        return;
      }
      AddEffect(Composite(l.spawn));
    }

    /**
     * `judge`: pops the current queue until it is empty, stepping each effect; those that
     * answer True go to the spare queue; then the two queues swap.
     */
    method Judge()
      modifies this
      ensures loop == old(cache) + Drain(old(loop)).kept
      ensures Idle()
      ensures stepped == old(stepped) + Drain(old(loop)).stepped
      ensures started == old(started) + Drain(old(loop)).started
    {
      while loop != []
        invariant cache + Drain(loop).kept == old(cache) + Drain(old(loop)).kept
        invariant stepped + Drain(loop).stepped == old(stepped) + Drain(old(loop)).stepped
        invariant started + Drain(loop).started == old(started) + Drain(old(loop)).started
        decreases Weight(loop)
      {
        ghost var q, c0, s0, t0 := loop, cache, stepped, started;
        var l := loop[0];
        loop := loop[1..];
        Step(l);
        if l.pending > 0 {
          DrainPendingHead(q);
          Assoc(c0, [Stepped(l)], Drain(loop).kept);
          Assoc(s0, [l.id], Drain(loop).stepped);
        } else {
          FinishLighter(q);
          DrainFinishHead(q);
          Assoc(s0, [l.id], Drain(loop).stepped);
          Assoc(t0, Ids(Flatten(l.spawn)), Drain(loop).started);
        }
      }
      loop, cache := cache, loop;
    }

    /** `matching_effects`: the queued effects satisfying p, current queue first, changing nothing. */
    method MatchingEffects(p: Leaf -> bool) returns (r: seq<Leaf>)
      ensures r == Filter(p, loop + cache)
      ensures forall l :: l in r <==> (l in loop || l in cache) && p(l)
    {
      r := [];
      var all := loop + cache;
      for i := 0 to |all|
        invariant r == Filter(p, all[..i])
      {
        assert all[..i + 1] == all[..i] + [all[i]];
        FilterAppend(p, all[..i], [all[i]]);
        if p(all[i]) {
          r := r + [all[i]];
        }
      }
      assert all[..|all|] == all;
      FilterMembers(p, all);
    }
  }

  function Filter(p: Leaf -> bool, q: seq<Leaf>): seq<Leaf>
  {
    if q == [] then [] else (if p(q[0]) then [q[0]] else []) + Filter(p, q[1..])
  }

  lemma {:induction false} FilterAppend(p: Leaf -> bool, a: seq<Leaf>, b: seq<Leaf>)
    ensures Filter(p, a + b) == Filter(p, a) + Filter(p, b)
    decreases |a|
  {
    if a != [] {
      assert (a + b)[1..] == a[1..] + b;
      FilterAppend(p, a[1..], b);
    } else {
      assert a + b == b;
    }
  }

  lemma {:induction false} FilterMembers(p: Leaf -> bool, q: seq<Leaf>)
    ensures forall l :: l in Filter(p, q) <==> l in q && p(l)
    decreases |q|
  {
    if q != [] {
      FilterMembers(p, q[1..]);
      assert forall l :: l in q <==> l == q[0] || l in q[1..];
    }
  }
}
