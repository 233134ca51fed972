/**
 * The item and skill actions: `Activate` and `Deactivate` (actions/item.py) and `Cast`
 * (actions/skill.py). Each finishes in its one step; what an action submits to the
 * scheduler is returned: the effect of a drug, the cure or attack of a cast.
 *
 * `on_activated` is dispatched on the item's kind: a sword equips itself, a book teaches its
 * skill, a drug is removed from the bag and submits its effect, and any other item does
 * nothing.
 */
module Actions {

  import opened Util
  import opened Stats
  import opened Inventory
  import opened Skills
  import opened Units
  import opened Battle
  import opened Spells

  /** `Item.activation_consumption`: no item overrides the default. */
  const ActivationConsumption: int := 1

  /**
   * `on_activated` of an item in the unit's bag, by kind. Only a drug submits an effect, and
   * only a book touches the learnt skills.
   */
  method OnActivatedItem(item: Item, u: Unit) returns (submitted: seq<nat>)
    requires u.Wired() && item in u.bag.items
    modifies u.board`STR, u.board`DEX, u.board`attackDist, u.bag.items`isEquipped,
             item`isEquipped, item`previousAttackDist, u.bag`items, u.bag`curCapacity, u.caster`learnt
    ensures submitted == if item.kind.Drug? then [item.kind.effect] else []
    ensures !item.kind.Book? ==> u.caster.learnt == old(u.caster.learnt)
    ensures item.kind.Sword? ==> item.isEquipped && u.bag.items == old(u.bag.items)
    ensures item.kind.Sword? && old(NoOtherEquipped(u.bag, item)) ==>
      GearOf(u.board) == if old(item.isEquipped) then old(GearOf(u.board)) else Equip(old(GearOf(u.board)), item.kind.level)
    ensures item.kind.Drug? ==> u.bag.items == old(u.bag.items) - {item}
    ensures item.kind.Drug? ==> u.bag.curCapacity == old(u.bag.curCapacity) - item.weight
    ensures item.kind.Book? ==>
      u.bag.items ==
        if old(Condition(item.kind.book, u.board)) && !old(KnowsKind(u.caster.learnt, Taught(item.kind.book)))
        then old(u.bag.items) - {item} else old(u.bag.items)
    ensures item.kind.Trinket? ==>
      u.bag.items == old(u.bag.items) && GearOf(u.board) == old(GearOf(u.board))
  {
    match item.kind
    case Sword(_) =>
      var _, _ := OnActivated(item, u.bag);
      submitted := [];
    case Book(_) =>
      var _, _ := BookOnActivated(item, u);
      submitted := [];
    case Drug(effect) =>
      var _ := u.bag.RemoveItem(item);
      submitted := [effect];
    case Trinket =>
      submitted := [];
  }

  /**
   * `Activate.on_step`: an item not in the bag is refused without spending efforts;
   * otherwise one effort is consumed and, when that succeeds, `on_activated` runs.
   */
  method ActivateStep(emitter: Unit, item: Item) returns (pending: bool, called: bool, submitted: seq<nat>)
    requires emitter.Wired()
    modifies emitter.board`efforts, emitter.board`STR, emitter.board`DEX, emitter.board`attackDist,
             emitter.bag.items`isEquipped, item`isEquipped, item`previousAttackDist,
             emitter.bag`items, emitter.bag`curCapacity, emitter.caster`learnt
    ensures !pending
    ensures called <==>
      item in old(emitter.bag.items) && old(emitter.board.alive) && old(emitter.board.efforts) > ActivationConsumption
    ensures emitter.board.efforts ==
      if called then old(emitter.board.efforts) - ActivationConsumption else old(emitter.board.efforts)
    ensures !called ==>
      && submitted == []
      && emitter.bag.items == old(emitter.bag.items)
      && emitter.caster.learnt == old(emitter.caster.learnt)
      && GearOf(emitter.board) == old(GearOf(emitter.board))
    ensures called ==> submitted == if item.kind.Drug? then [item.kind.effect] else []
    ensures called && item.kind.Sword? ==> item.isEquipped
    ensures called && item.kind.Drug? ==> item !in emitter.bag.items
    ensures called && item.kind.Book? ==>
      (item !in emitter.bag.items <==>
         old(Condition(item.kind.book, emitter.board)) && !old(KnowsKind(emitter.caster.learnt, Taught(item.kind.book))))
  {
    if !emitter.bag.HasItem(item) {
      return false, false, [];
    }
    called := emitter.board.ConsumeEfforts(ActivationConsumption);
    submitted := [];
    if called {
      submitted := OnActivatedItem(item, emitter);
    }
    pending := false;
  }

  /**
   * `Deactivate.on_step`: for an item in the bag `on_deactivated` runs once, which takes an
   * equipped sword off; no efforts are spent.
   */
  method DeactivateStep(emitter: Unit, item: Item) returns (pending: bool, called: bool)
    modifies emitter.board`STR, emitter.board`DEX, emitter.board`attackDist, item`isEquipped
    ensures !pending
    ensures called <==> item in emitter.bag.items
    ensures emitter.board.efforts == old(emitter.board.efforts)
    ensures called && item.kind.Sword? ==>
      && !item.isEquipped
      && GearOf(emitter.board) ==
           if old(item.isEquipped) then Unequip(old(GearOf(emitter.board)), item.kind.level, item.previousAttackDist)
           else old(GearOf(emitter.board))
    ensures !(called && item.kind.Sword?) ==>
      GearOf(emitter.board) == old(GearOf(emitter.board)) && item.isEquipped == old(item.isEquipped)
  {
    if !emitter.bag.HasItem(item) {
      return false, false;
    }
    if item.kind.Sword? {
      var _ := OnDeactivated(item, emitter.board);
    }
    return false, true;
  }

  /** What a cast hands to the scheduler: a cure to run, or an attack. */
  datatype Spell = Heal(healing: Healing) | Blast(attack: Attack)

  /**
   * `Cast.on_step`: an unlearnt skill is refused without spending efforts; otherwise the
   * skill's casting consumption is spent and, when that succeeds, the skill is cast and
   * whatever it makes is submitted.
   */
  method CastStep(emitter: Unit, skill: Skill, target: Unit?, distance: real, levelUp: real)
    returns (pending: bool, cast: bool, spell: Option<Spell>)
    modifies emitter.board`efforts, emitter.caster`learnt
    ensures !pending
    ensures cast <==>
      skill in old(emitter.caster.learnt) && old(emitter.board.alive)
      && old(emitter.board.efforts) > CastingConsumption(skill.kind)
    ensures emitter.board.efforts ==
      if cast then old(emitter.board.efforts) - CastingConsumption(skill.kind) else old(emitter.board.efforts)
    ensures !cast ==> spell.None?
    ensures cast ==>
      var level := old(emitter.caster.learnt[skill]);
      && (spell.Some? <==>
            target != null && level != 0.0 && (skill.kind == Cure ==> distance <= SkillDistance(level)))
      && (target != null && spell.Some? && skill.kind == Cure ==> spell == Some(Heal(old(HealingOf(target, level)))))
      && (target != null && spell.Some? && skill.kind == FireBall ==>
            spell == Some(Blast(Attack(emitter, target, FireBallAtk(level), SkillDist(level), 1.0))))
    ensures emitter.caster.learnt ==
      if spell.Some? then old(emitter.caster.learnt)[skill := old(emitter.caster.learnt[skill]) + levelUp]
      else old(emitter.caster.learnt)
  {
    if !emitter.caster.HasSkill(skill) {
      return false, false, None;
    }
    cast := emitter.board.ConsumeEfforts(CastingConsumption(skill.kind));
    spell := None;
    if cast {
      match skill.kind
      case Cure =>
        var h := CureCast(emitter, skill, target, distance, levelUp);
        if h.Some? {
          spell := Some(Heal(h.value));
        }
      case FireBall =>
        var a := FireBallCast(emitter, skill, target, levelUp);
        if a.Some? {
          spell := Some(Blast(a.value));
        }
    }
    pending := false;
  }
}
