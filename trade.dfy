/**
 * The trade handshake of actions/transaction.py: a `Create` effect waits until both
 * parties have shaken on it, then checks money and items and settles; `Shake`, `Cancel`,
 * `ModMoney` and `ModItem` act on the first in-flight trade carrying their ticket.
 *
 * Tickets, which the source draws from `uuid4`, are natural numbers chosen by the caller.
 * The in-flight trades are given as a sequence, in the order `matching_effects` visits them.
 */
module Trade {

  import opened Util
  import opened Stats
  import opened Inventory
  import opened Units

  /** `Data`: the money and items one side puts into the trade. */
  datatype Data = Data(money: int, items: set<Item>)

  /** How a step of a trade ended. */
  datatype Settlement =
    | Cancelled
    | Waiting
    | EmitterShort     // the emitter cannot pay the cost
    | TargetShort      // the target cannot pay the gain
    | TargetLacks      // some gain item is not in the target's bag
    | EmitterLacks     // some cost item is not in the emitter's bag
    | Settled

  /** `add_money` then `remove_money`, each clamped to [0, MAX_MONEY]. */
  function Settle(balance: int, plus: int, minus: int): (r: int)
    ensures 0 <= r <= MaxMoney
    ensures 0 <= balance + plus <= MaxMoney && 0 <= balance + plus - minus <= MaxMoney ==> r == balance + plus - minus
  {
    ClampInt(ClampInt(balance + plus, 0, MaxMoney) - minus, 0, MaxMoney)
  }

  /** Money is conserved by a settlement that never hits a clamp. */
  lemma SettleConserves(e: int, t: int, cost: int, gain: int)
    requires 0 <= e + gain <= MaxMoney && 0 <= e + gain - cost <= MaxMoney
    requires 0 <= t + cost <= MaxMoney && 0 <= t + cost - gain <= MaxMoney
    ensures Settle(e, gain, cost) + Settle(t, cost, gain) == e + t
    ensures Settle(e, gain, cost) == e + gain - cost && Settle(t, cost, gain) == t + cost - gain
  {
  }

  /** A clamp can destroy money: 10 paid to a target already at the cap is lost. */
  lemma SettleCanLoseMoney()
    ensures Settle(10, 0, 10) + Settle(MaxMoney, 10, 0) == MaxMoney
    ensures 10 + MaxMoney != MaxMoney
  {
  }

  /** The swords of the set that are flagged as equipped. */
  ghost function Equipped(s: set<Item>): set<Item>
    reads s
  {
    set i | i in s && i.kind.Sword? && i.isEquipped
  }

  /** The sum of a per-level bonus over the swords of the set. */
  ghost function BonusSum(s: set<Item>, bonus: int -> real): real
  {
    if s == {} then 0.0
    else var x :| x in s; (if x.kind.Sword? then bonus(x.kind.level) else 0.0) + BonusSum(s - {x}, bonus)
  }

  /** Any element may be taken out first: the sum does not depend on the choice. */
  lemma {:induction false} BonusSumRemove(s: set<Item>, bonus: int -> real, x: Item)
    requires x in s
    ensures BonusSum(s, bonus) == (if x.kind.Sword? then bonus(x.kind.level) else 0.0) + BonusSum(s - {x}, bonus)
    decreases |s|
  {
    var y :| y in s && BonusSum(s, bonus) == (if y.kind.Sword? then bonus(y.kind.level) else 0.0) + BonusSum(s - {y}, bonus);
    if y != x {
      BonusSumRemove(s - {y}, bonus, x);
      BonusSumRemove(s - {x}, bonus, y);
      assert s - {y} - {x} == s - {x} - {y};
    }
  }

  /** Adding a new sword adds its bonus to the sum. */
  lemma BonusSumAdd(s: set<Item>, bonus: int -> real, x: Item)
    requires x !in s && x.kind.Sword?
    ensures BonusSum(s + {x}, bonus) == BonusSum(s, bonus) + bonus(x.kind.level)
  {
    BonusSumRemove(s + {x}, bonus, x);
    assert s + {x} - {x} == s;
  }

  /** The swords among a set of items. */
  function Swords(s: set<Item>): (r: set<Item>)
    ensures r <= s && forall i <- s :: i in r <==> i.kind.Sword?
  {
    set i | i in s && i.kind.Sword?
  }

  /**
   * What moving items between two bags changes, as values: the giver's items and load, the
   * receiver's items and load, the giver's gear, and which of the moving items are flagged
   * as equipped.
   */
  datatype Sides = Sides(held: set<Item>, load: int, had: set<Item>, carried: int, gear: Gear, on: set<Item>)

  ghost function SidesOf(from: Bag, to: Bag, moving: set<Item>): Sides
    reads from, to, from.board, moving
  {
    Sides(from.items, from.curCapacity, to.items, to.curCapacity, GearOf(from.board),
          set i | i in moving && i.isEquipped)
  }

  /**
   * One round of a settlement loop on values: an item the giver holds leaves it (taking an
   * equipped sword off, back to the distance `saved` when it was put on) and is added to
   * the receiver unless it is already there or would pass `room`; any other item changes nothing.
   */
  ghost predicate Handed(s: Sides, t: Sides, item: Item, room: int, saved: real)
  {
    if item !in s.held then t == s
    else
      && t.held == s.held - {item} && t.load == s.load - item.weight
      && t.on == (if item.kind.Sword? then s.on - {item} else s.on)
      && t.gear == (if item.kind.Sword? && item in s.on then Unequip(s.gear, item.kind.level, saved) else s.gear)
      && if item !in s.had && s.carried + item.weight <= room
         then t.had == s.had + {item} && t.carried == s.carried + item.weight
         else t.had == s.had && t.carried == s.carried
  }

  /**
   * Where a settlement loop stands once the items `done` have been handed over, starting
   * from `s0`: the giver lost exactly those it held and their weight; the receiver gained
   * some of them, with their weight, and one it lacks did not fit (when no weight is
   * negative, `light`); the swords handed over are unflagged and their bonuses are off the
   * giver's gear, whose attack distance is that saved by one of them.
   */
  ghost predicate Progress(s0: Sides, s: Sides, done: set<Item>, light: bool, room: int, saved: map<Item, real>)
  {
    var given := done * s0.held;
    var worn := Swords(s0.held * s0.on) * done;
    && s.held == s0.held - done
    && s.load == s0.load - TotalWeight(given)
    && s0.had <= s.had <= s0.had + given
    && s.carried == s0.carried + TotalWeight(s.had - s0.had)
    && (s0.carried <= room ==> s.carried <= room)
    && (light ==> s0.carried <= s.carried && forall i <- given :: i in s.had || s.carried + i.weight > room)
    && s.on == s0.on - Swords(given)
    && s.gear.str == s0.gear.str - BonusSum(worn, StrBonus)
    && s.gear.dex == s0.gear.dex - BonusSum(worn, DexBonus)
    && (worn == {} ==> s.gear.attackDist == s0.gear.attackDist)
    && (worn != {} ==> exists i <- worn :: i in saved && s.gear.attackDist == saved[i])
  }

  /** Nothing handed over yet. */
  lemma ProgressStart(s0: Sides, light: bool, room: int, saved: map<Item, real>)
    ensures Progress(s0, s0, {}, light, room, saved)
  {
    assert {} * s0.held == {} && s0.had - s0.had == {};
    assert Swords(s0.held * s0.on) * {} == {};
  }

  /** One more item handed over keeps the loop's account. */
  lemma ProgressStep(s0: Sides, s: Sides, t: Sides, item: Item, done: set<Item>, light: bool,
                     room: int, saved: map<Item, real>)
    requires Progress(s0, s, done, light, room, saved)
    requires item !in done && item in saved && (light ==> item.weight >= 0)
    requires Handed(s, t, item, room, saved[item])
    ensures Progress(s0, t, done + {item}, light, room, saved)
  {
    var given := done * s0.held;
    var worn := Swords(s0.held * s0.on);
    if item in s.held {
      assert (done + {item}) * s0.held == given + {item};
      TotalWeightAdd(given, item);
      if t.had != s.had {
        assert t.had - s0.had == (s.had - s0.had) + {item};
        TotalWeightAdd(s.had - s0.had, item);
      }
      assert Swords(given + {item}) == Swords(given) + (if item.kind.Sword? then {item} else {});
      if item in worn {
        assert worn * (done + {item}) == worn * done + {item};
        BonusSumAdd(worn * done, StrBonus, item);
        BonusSumAdd(worn * done, DexBonus, item);
      } else {
        assert worn * (done + {item}) == worn * done;
      }
    } else {
      assert (done + {item}) * s0.held == given;
      assert worn * (done + {item}) == worn * done;
    }
  }

  /** When no weight is negative and everything the giver held fits, all of it arrives. */
  lemma AllArrive(s0: Sides, s: Sides, moving: set<Item>, room: int, saved: map<Item, real>)
    requires Progress(s0, s, moving, true, room, saved) && NonNegativeWeights(moving)
    requires moving * s0.held !! s0.had && s0.carried + TotalWeight(moving * s0.held) <= room
    ensures s.had == s0.had + moving * s0.held
  {
    forall i | i in moving * s0.held
      ensures i in s.had
    {
      RoomFor(s.had - s0.had, moving * s0.held, i);
    }
  }

  /** One round of a settlement loop: the item is offered to the receiver only if the giver gave it up. */
  method Hand(from: Bag, to: Bag, item: Item, ghost moving: set<Item>, ghost s: Sides, ghost saved: real)
    requires item in moving && saved == item.previousAttackDist
    requires from != to ==> s == SidesOf(from, to, moving)
    modifies from`items, from`curCapacity, from.board`STR, from.board`DEX, from.board`attackDist,
             item`isEquipped, to`items, to`curCapacity
    ensures from != to ==> Handed(s, SidesOf(from, to, moving), item, to.maxCapacity, saved)
    ensures old(from.Valid()) ==> from.Valid()
    ensures old(to.Valid()) ==> to.Valid()
  {
    var removed := from.RemoveItem(item);
    if removed {
      var _ := to.AddItem(item);
    }
  }

  /**
   * The settlement loop itself, item by item in some order of the set: it keeps the account
   * `Progress` from the snapshot `s0` taken before it, with `saved` the distances the moving
   * swords saved when they were put on.
   */
  method HandEach(from: Bag, to: Bag, moving: set<Item>, ghost s0: Sides, ghost saved: map<Item, real>)
    requires from != to ==> s0 == SidesOf(from, to, moving)
    requires saved == map i | i in moving :: i.previousAttackDist
    modifies from`items, from`curCapacity, from.board`STR, from.board`DEX, from.board`attackDist,
             moving`isEquipped, to`items, to`curCapacity
    ensures from != to ==>
      Progress(s0, SidesOf(from, to, moving), moving, NonNegativeWeights(moving), to.maxCapacity, saved)
    ensures old(from.Valid()) ==> from.Valid()
    ensures old(to.Valid()) ==> to.Valid()
  {
    ghost var light := NonNegativeWeights(moving);
    ghost var done: set<Item> := {};
    ghost var s := s0;
    ProgressStart(s0, light, to.maxCapacity, saved);
    var rest := moving;
    while rest != {}
      invariant done <= moving && rest == moving - done
      invariant from != to ==> s == SidesOf(from, to, moving) && Progress(s0, s, done, light, to.maxCapacity, saved)
      invariant old(from.Valid()) ==> from.Valid()
      invariant old(to.Valid()) ==> to.Valid()
      decreases rest
    {
      var item :| item in rest;
      Hand(from, to, item, moving, s, saved[item]);
      if from != to {
        ghost var t := SidesOf(from, to, moving);
        ProgressStep(s0, s, t, item, done, light, to.maxCapacity, saved);
        s := t;
      }
      rest := rest - {item};
      done := done + {item};
    }
    assert done == moving;
  }

  /**
   * `transac` items moved from one bag to the other, as the two settlement loops do: each
   * item is removed from the giver, which takes an equipped sword off its owner, and, only
   * if that removal succeeded, offered to the receiver, which drops it when it is already
   * held or does not fit. An item that the giver held and the receiver lacks afterwards is
   * one that does not fit even now; when everything the giver held fits, all of it arrives.
   */
  method Transfer(from: Bag, to: Bag, moving: set<Item>)
    modifies from`items, from`curCapacity, from.board`STR, from.board`DEX, from.board`attackDist,
             moving`isEquipped, to`items, to`curCapacity
    ensures from != to ==> from.items == old(from.items) - moving
    ensures from != to ==> from.curCapacity == old(from.curCapacity) - TotalWeight(moving * old(from.items))
    ensures from != to ==> old(to.items) <= to.items <= old(to.items) + (moving * old(from.items))
    ensures from != to ==> to.curCapacity == old(to.curCapacity) + TotalWeight(to.items - old(to.items))
    ensures from != to && old(to.curCapacity) <= to.maxCapacity ==> to.curCapacity <= to.maxCapacity
    ensures from != to && NonNegativeWeights(moving) ==>
      forall i <- moving * old(from.items) :: i in to.items || to.curCapacity + i.weight > to.maxCapacity
    ensures from != to && NonNegativeWeights(moving) && moving * old(from.items) !! old(to.items)
            && old(to.curCapacity) + TotalWeight(moving * old(from.items)) <= to.maxCapacity ==>
      to.items == old(to.items) + moving * old(from.items)
    ensures from != to ==> forall i <- moving ::
      i.isEquipped == (old(i.isEquipped) && !(i.kind.Sword? && i in old(from.items)))
    ensures from != to ==>
      var worn := old(Equipped(moving * from.items));
      && from.board.STR == old(from.board.STR) - BonusSum(worn, StrBonus)
      && from.board.DEX == old(from.board.DEX) - BonusSum(worn, DexBonus)
      && (worn == {} ==> from.board.attackDist == old(from.board.attackDist))
      && (worn != {} ==> exists i <- worn :: from.board.attackDist == i.previousAttackDist)
    ensures old(from.Valid()) ==> from.Valid()
    ensures old(to.Valid()) ==> to.Valid()
  {
    ghost var s0 := SidesOf(from, to, moving);
    ghost var saved := map i | i in moving :: i.previousAttackDist;
    HandEach(from, to, moving, s0, saved);
    if from != to {
      ghost var s := SidesOf(from, to, moving);
      forall i | i in moving
        ensures i.isEquipped == (old(i.isEquipped) && !(i.kind.Sword? && i in old(from.items)))
      {
        assert i.isEquipped <==> i in s.on;
        assert old(i.isEquipped) <==> i in s0.on;
      }
      assert old(Equipped(moving * from.items)) == Swords(s0.held * s0.on) * moving;
      if NonNegativeWeights(moving) && moving * s0.held !! s0.had
         && s0.carried + TotalWeight(moving * s0.held) <= to.maxCapacity {
        AllArrive(s0, s, moving, to.maxCapacity, saved);
      }
    }
  }

  /**
   * The two settlement loops of `on_step`: the `give` items go from `e` to `t`, then the
   * `take` items from `t` to `e`. Each side ends with what it kept plus some of what it was
   * given; when the bags share no item, no weight is negative and the receiving side has
   * room for everything, it ends with exactly that.
   */
  method Exchange(e: Bag, t: Bag, give: set<Item>, take: set<Item>)
    requires give <= e.items && take <= t.items
    modifies e`items, e`curCapacity, e.board`STR, e.board`DEX, e.board`attackDist,
             t`items, t`curCapacity, t.board`STR, t.board`DEX, t.board`attackDist,
             give`isEquipped, take`isEquipped
    ensures e != t ==> old(e.items) - give <= e.items <= (old(e.items) - give) + take
    ensures e != t ==> old(t.items) - take <= t.items <= (old(t.items) - take) + give
    ensures e != t ==> t.items !! take
    ensures e != t && old(e.items) !! old(t.items) && NonNegativeWeights(give)
            && old(t.curCapacity) + TotalWeight(give) <= t.maxCapacity ==>
      t.items == (old(t.items) - take) + give
    ensures e != t && old(e.items) !! old(t.items) && NonNegativeWeights(take)
            && old(e.curCapacity) - TotalWeight(give) + TotalWeight(take) <= e.maxCapacity ==>
      e.items == (old(e.items) - give) + take
    ensures old(e.Valid()) ==> e.Valid()
    ensures old(t.Valid()) ==> t.Valid()
  {
    assert give * e.items == give;
    Transfer(e, t, give);
    assert e != t ==> take * t.items == take;
    Transfer(t, e, take);
  }

  /**
   * The money half of a settlement: `e` is paid `gain` and pays `cost`, then `t` is paid
   * `cost` and pays `gain`, each update clamped. On one bag the four updates follow each other.
   */
  method Pay(e: Bag, t: Bag, cost: int, gain: int)
    modifies e`money, t`money
    ensures e != t ==> e.money == Settle(old(e.money), gain, cost) && t.money == Settle(old(t.money), cost, gain)
    ensures e == t ==> e.money == Settle(Settle(old(e.money), gain, cost), cost, gain)
    ensures 0 <= e.money <= MaxMoney && 0 <= t.money <= MaxMoney
  {
    e.AddMoney(gain);
    e.RemoveMoney(cost);
    t.AddMoney(cost);
    t.RemoveMoney(gain);
  }

  /** A `Create` effect in flight. */
  class Trade {
    const emitter: Unit
    const target: Unit
    const ticket: nat
    var cost: Data
    var gain: Data
    var shakenByEmitter: bool
    var shakenByTarget: bool
    var cancelled: bool

    /** `Create(emitter, target, cost, gain)`: a dead target counts as having shaken already. */
    constructor (emitter: Unit, target: Unit, cost: Data, gain: Data, ticket: nat)
      ensures this.emitter == emitter && this.target == target && this.ticket == ticket
      ensures this.cost == cost && this.gain == gain
      ensures !shakenByEmitter && !cancelled
      ensures shakenByTarget <==> !target.board.alive
    {
      this.emitter := emitter;
      this.target := target;
      this.ticket := ticket;
      this.cost := cost;
      this.gain := gain;
      shakenByEmitter := false;
      shakenByTarget := !target.board.alive;
      cancelled := false;
    }

    /** What the next step of this trade will do, checked in the order `on_step` checks it. */
    function Outcome(): (r: Settlement)
      reads this, emitter.bag, target.bag
      ensures r == Cancelled <==> cancelled
      ensures r == Settled ==> gain.items <= target.bag.items && cost.items <= emitter.bag.items
    {
      if cancelled then Cancelled
      else if !shakenByTarget || !shakenByEmitter then Waiting
      else if emitter.bag.money < cost.money then EmitterShort
      else if target.bag.money < gain.money then TargetShort
      else if !(gain.items <= target.bag.items) then TargetLacks
      else if !(cost.items <= emitter.bag.items) then EmitterLacks
      else Settled
    }

    /** A trade settles exactly when it is not cancelled, both parties shook, and both can deliver. */
    lemma SettlesIff()
      ensures Outcome() == Settled <==>
        && !cancelled && shakenByEmitter && shakenByTarget
        && emitter.bag.money >= cost.money && target.bag.money >= gain.money
        && gain.items <= target.bag.items && cost.items <= emitter.bag.items
      ensures Outcome() == Waiting <==> !cancelled && !(shakenByEmitter && shakenByTarget)
    {
    }

    /**
     * `Create.on_step`: a cancelled or failing trade finishes and changes no bag; an
     * unshaken one stays pending; a settled one moves the money, clamped, and the items.
     */
    method Step() returns (pending: bool, outcome: Settlement)
      modifies emitter.bag`money, emitter.bag`items, emitter.bag`curCapacity,
               emitter.bag.board`STR, emitter.bag.board`DEX, emitter.bag.board`attackDist,
               target.bag`money, target.bag`items, target.bag`curCapacity,
               target.bag.board`STR, target.bag.board`DEX, target.bag.board`attackDist,
               cost.items`isEquipped, gain.items`isEquipped
      ensures outcome == old(Outcome())
      ensures pending <==> outcome == Waiting
      ensures outcome != Settled ==>
        && emitter.bag.money == old(emitter.bag.money) && target.bag.money == old(target.bag.money)
        && emitter.bag.items == old(emitter.bag.items) && target.bag.items == old(target.bag.items)
      ensures outcome == Settled && emitter.bag != target.bag ==>
        && emitter.bag.money == Settle(old(emitter.bag.money), gain.money, cost.money)
        && target.bag.money == Settle(old(target.bag.money), cost.money, gain.money)
        && old(emitter.bag.items) - cost.items <= emitter.bag.items <= (old(emitter.bag.items) - cost.items) + gain.items
        && old(target.bag.items) - gain.items <= target.bag.items <= (old(target.bag.items) - gain.items) + cost.items
        && target.bag.items !! gain.items
      ensures outcome == Settled && emitter.bag != target.bag && old(emitter.bag.items) !! old(target.bag.items)
              && NonNegativeWeights(cost.items)
              && old(target.bag.curCapacity) + TotalWeight(cost.items) <= target.bag.maxCapacity ==>
        target.bag.items == (old(target.bag.items) - gain.items) + cost.items
      ensures outcome == Settled && emitter.bag != target.bag && old(emitter.bag.items) !! old(target.bag.items)
              && NonNegativeWeights(gain.items)
              && old(emitter.bag.curCapacity) - TotalWeight(cost.items) + TotalWeight(gain.items) <= emitter.bag.maxCapacity ==>
        emitter.bag.items == (old(emitter.bag.items) - cost.items) + gain.items
      ensures outcome == Settled && emitter.bag == target.bag ==>
        emitter.bag.money == Settle(Settle(old(emitter.bag.money), gain.money, cost.money), cost.money, gain.money)
      ensures outcome != Settled ==>
        unchanged(emitter.bag, target.bag, emitter.bag.board, target.bag.board) && unchanged(cost.items, gain.items)
      ensures old(emitter.bag.Valid()) ==> emitter.bag.Valid()
      ensures old(target.bag.Valid()) ==> target.bag.Valid()
    {
      outcome := Outcome();
      pending := outcome == Waiting;
      if outcome != Settled {
        return;
      }
      var e, t := emitter.bag, target.bag;
      Pay(e, t, cost.money, gain.money);
      Exchange(e, t, cost.items, gain.items);
    }
  }

  /** The `cond` of the ticket-taking effects: the effect is a trade with this ticket. */
  function TicketIs(ticket: nat): Trade -> bool
  {
    (t: Trade) => t.ticket == ticket
  }

  /** The position of the first trade with the ticket, if any. */
  function FirstWith(trades: seq<Trade>, ticket: nat): (r: Option<nat>)
    ensures r.Some? ==> (r.value < |trades| && trades[r.value].ticket == ticket
      && forall k :: 0 <= k < r.value ==> trades[k].ticket != ticket)
    ensures r.None? ==> forall k :: 0 <= k < |trades| ==> trades[k].ticket != ticket
  {
    FirstWhere(trades, TicketIs(ticket))
  }

  /** The loop over `matching_effects` up to its `break`: the first trade with the ticket. */
  method FindTrade(trades: seq<Trade>, ticket: nat) returns (r: Option<nat>)
    ensures r == FirstWith(trades, ticket)
  {
    r := FindFirst(trades, TicketIs(ticket));
  }

  function Trades(trades: seq<Trade>): set<Trade>
  {
    set t | t in trades
  }

  /** `Cancel.on_step`: the first trade with the ticket is cancelled; no other trade changes. */
  method Cancel(trades: seq<Trade>, ticket: nat)
    modifies Trades(trades)`cancelled
    ensures match FirstWith(trades, ticket)
      case None => forall t :: t in trades ==> t.cancelled == old(t.cancelled)
      case Some(i) => trades[i].cancelled && forall t :: t in trades && t != trades[i] ==> t.cancelled == old(t.cancelled)
  {
    var r := FindTrade(trades, ticket);
    if r.Some? {
      trades[r.value].cancelled := true;
    }
  }

  /**
   * `Shake.on_step`: on the first trade with the ticket, the emitter's flag is set when the
   * shaker is its emitter, else the target's flag when it is its target; a stranger changes
   * nothing.
   */
  method Shake(trades: seq<Trade>, shaker: Unit, ticket: nat)
    modifies Trades(trades)`shakenByEmitter, Trades(trades)`shakenByTarget
    ensures match FirstWith(trades, ticket)
      case None =>
        forall t :: t in trades ==> t.shakenByEmitter == old(t.shakenByEmitter) && t.shakenByTarget == old(t.shakenByTarget)
      case Some(i) =>
        var s := trades[i];
        && s.shakenByEmitter == (old(s.shakenByEmitter) || s.emitter == shaker)
        && s.shakenByTarget == (old(s.shakenByTarget) || (s.emitter != shaker && s.target == shaker))
        && forall t :: t in trades && t != s ==>
             t.shakenByEmitter == old(t.shakenByEmitter) && t.shakenByTarget == old(t.shakenByTarget)
  {
    var r := FindTrade(trades, ticket);
    if r.Some? {
      var s := trades[r.value];
      if s.emitter == shaker {
        s.shakenByEmitter := true;
      } else if s.target == shaker {
        s.shakenByTarget := true;
      }
    }
  }

  /** Which side's data a modification edits: `ask_other and cost or gain`, mirrored for the target. */
  datatype Side = CostSide | GainSide

  function SideOf(s: Trade, editor: Unit, askOther: bool): (r: Option<Side>)
    ensures r.None? <==> editor != s.emitter && editor != s.target
    ensures editor == s.emitter ==> r == Some(if askOther then CostSide else GainSide)
    ensures editor != s.emitter && editor == s.target ==> r == Some(if askOther then GainSide else CostSide)
  {
    if editor == s.emitter then Some(if askOther then CostSide else GainSide)
    else if editor == s.target then Some(if askOther then GainSide else CostSide)
    else None
  }

  /** Asking for the other side flips the side edited, for either party. */
  lemma AskOtherFlips(s: Trade, editor: Unit)
    requires editor == s.emitter || editor == s.target
    ensures SideOf(s, editor, true).Some? && SideOf(s, editor, false).Some?
    ensures SideOf(s, editor, true).value != SideOf(s, editor, false).value
  {
  }

  /**
   * `ModMoney.on_step` with the ticket it was made with: on the first trade with that
   * ticket, a party sets the money of the side it asks for.
   */
  method ModMoney(trades: seq<Trade>, editor: Unit, ticket: nat, money: int, askOther: bool)
    modifies Trades(trades)`cost, Trades(trades)`gain
    ensures match FirstWith(trades, ticket)
      case None => forall t :: t in trades ==> t.cost == old(t.cost) && t.gain == old(t.gain)
      case Some(i) =>
        var s := trades[i];
        && (SideOf(s, editor, askOther) == Some(CostSide) ==> s.cost == old(s.cost).(money := money) && s.gain == old(s.gain))
        && (SideOf(s, editor, askOther) == Some(GainSide) ==> s.gain == old(s.gain).(money := money) && s.cost == old(s.cost))
        && (SideOf(s, editor, askOther).None? ==> s.cost == old(s.cost) && s.gain == old(s.gain))
        && forall t :: t in trades && t != s ==> t.cost == old(t.cost) && t.gain == old(t.gain)
  {
    var r := FindTrade(trades, ticket);
    if r.None? {
      return;
    }
    var s := trades[r.value];
    match SideOf(s, editor, askOther)
    case Some(CostSide) =>
      s.cost := s.cost.(money := money);
    case Some(GainSide) =>
      s.gain := s.gain.(money := money);
    case None =>
  }

  /**
   * `ModMoney` makes its own fresh ticket when it is constructed, which no trade carries, so
   * its step changes no trade.
   */
  lemma ModMoneyFreshTicketIsInert(trades: seq<Trade>, ticket: nat)
    requires forall t :: t in trades ==> t.ticket != ticket
    ensures FirstWith(trades, ticket).None?
  {
    FirstWhereNone(trades, TicketIs(ticket));
  }

  datatype Modifier = Add | Remove

  function Modified(d: Data, item: Item, m: Modifier): (r: Data)
    ensures r.money == d.money
    ensures m == Add ==> item in r.items && r.items - {item} == d.items - {item}
    ensures m == Remove ==> item !in r.items && r.items == d.items - {item}
  {
    match m
    case Add => d.(items := d.items + {item})
    case Remove => d.(items := d.items - {item})
  }

  /** Removing an item that was just added gives back the data when it was not there before. */
  lemma RemoveUndoesAdd(d: Data, item: Item)
    requires item !in d.items
    ensures Modified(Modified(d, item, Add), item, Remove) == d
  {
  }

  /**
   * `ModItem.on_step`: on the first trade with the ticket, a party adds the item to, or
   * discards it from, the side it asks for; a stranger changes nothing.
   */
  method ModItem(trades: seq<Trade>, editor: Unit, ticket: nat, item: Item, m: Modifier, askOther: bool)
    modifies Trades(trades)`cost, Trades(trades)`gain
    ensures match FirstWith(trades, ticket)
      case None => forall t :: t in trades ==> t.cost == old(t.cost) && t.gain == old(t.gain)
      case Some(i) =>
        var s := trades[i];
        && (SideOf(s, editor, askOther) == Some(CostSide) ==> s.cost == Modified(old(s.cost), item, m) && s.gain == old(s.gain))
        && (SideOf(s, editor, askOther) == Some(GainSide) ==> s.gain == Modified(old(s.gain), item, m) && s.cost == old(s.cost))
        && (SideOf(s, editor, askOther).None? ==> s.cost == old(s.cost) && s.gain == old(s.gain))
        && forall t :: t in trades && t != s ==> t.cost == old(t.cost) && t.gain == old(t.gain)
  {
    var r := FindTrade(trades, ticket);
    if r.None? {
      return;
    }
    var s := trades[r.value];
    match SideOf(s, editor, askOther)
    case Some(CostSide) =>
      s.cost := Modified(s.cost, item, m);
    case Some(GainSide) =>
      s.gain := Modified(s.gain, item, m);
    case None =>
  }
}
