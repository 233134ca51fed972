/**
 * The two skills and the books that teach them: `Cure`, `CureEffect` and `PasterBook`
 * (items/books/cure.py), `FireBall` and `RudiFireBook` (items/books/fireball.py), and
 * `Book.on_activated` (items/book.py).
 *
 * The distance from caster to target, which the source measures with floating-point
 * geometry, is a parameter, and so is the level-up amount, which the source computes with
 * a non-integer power of the level.
 */
module Spells {

  import opened Util
  import opened Stats
  import opened Inventory
  import opened Skills
  import opened Units
  import opened Battle

  /** `skill_distance`: the reach of a cure. */
  function SkillDistance(level: real): (r: real)
    ensures r >= 10.0 <==> level >= 0.0
  {
    10.0 + level * 0.35
  }

  /** `skill_dist`: the reach of a fire ball. */
  function SkillDist(level: real): (r: real)
    ensures r >= 7.2 <==> level >= 0.0
  {
    7.2 + level * 0.3
  }

  /** Both reaches grow with the level. */
  lemma ReachGrows(l: real, m: real)
    requires l <= m
    ensures SkillDistance(l) <= SkillDistance(m) && SkillDist(l) <= SkillDist(m)
    ensures SkillDistance(l) - SkillDist(l) == 2.8 + 0.05 * l
  {
  }

  // ---------------------------------------------------------------- healing

  /** The parameters of a `CureEffect`: whom it heals, in total and per step. */
  datatype Healing = Healing(target: Unit, total: real, each: real)

  /** What `Cure.cast` computes from the target's SPR and INT and the caster's level. */
  function HealingOf(target: Unit, level: real): (h: Healing)
    reads target.board`SPR, target.board`INT
    ensures h.target == target && h.total == 2.0 * h.each
  {
    var b := target.board;
    var r := GetRatio(level + 0.1 * b.SPR + 0.9 * b.INT);
    Healing(target, 2.0 * level + 0.5 * b.INT * r, level + 0.5 * b.INT * r / 2.0)
  }

  /**
   * A cure's total is exactly twice its per-step heal (doubling is exact in binary floating
   * point too), and with a positive level and non-negative INT and SPR both are at least the level.
   */
  lemma CureIsTwoHalves(target: Unit, level: real)
    ensures HealingOf(target, level).total == 2.0 * HealingOf(target, level).each
    ensures level > 0.0 && target.board.INT >= 0.0 && target.board.SPR >= 0.0 ==>
      HealingOf(target, level).each >= level
  {
    var b := target.board;
    var r := GetRatio(level + 0.1 * b.SPR + 0.9 * b.INT);
    if level > 0.0 && b.INT >= 0.0 && b.SPR >= 0.0 {
      assert r > 0.0;
      assert 0.5 * b.INT * r >= 0.0;
    }
  }

  function Sum(s: seq<real>): real
  {
    if s == [] then 0.0 else s[0] + Sum(s[1..])
  }

  /** Shifting a real by one shifts its ceiling by one. */
  lemma CeilShift(x: real)
    ensures Ceil(x - 1.0) == Ceil(x) - 1
  {
    var c, d := Ceil(x), Ceil(x - 1.0);
    assert x - 1.0 <= d as real < x;
    assert x - 1.0 <= (c - 1) as real < x;
  }

  lemma DivShift(left: real, each: real)
    requires each > 0.0
    ensures (left - each) / each == left / each - 1.0
  {
    assert each / each == 1.0;
    assert (left - each) / each == left / each - each / each;
  }

  /**
   * The amounts a cure with `left` still to heal passes on, step by step, when the
   * per-step heal is positive: full steps while more than one step is left, then the rest.
   */
  function HealPlan(left: real, each: real): (r: seq<real>)
    requires each > 0.0
    ensures |r| >= 1
    decreases Ceil(left / each)
  {
    if left > each then
      DivShift(left, each);
      CeilShift(left / each);
      [each] + HealPlan(left - each, each)
    else [left]
  }

  /** The amounts healed add up to the total. */
  lemma {:induction false} HealPlanSum(left: real, each: real)
    requires each > 0.0
    ensures Sum(HealPlan(left, each)) == left
    decreases Ceil(left / each)
  {
    if left > each {
      DivShift(left, each);
      CeilShift(left / each);
      HealPlanSum(left - each, each);
    }
  }

  /** The cure takes ceil(total / each) steps, and at least one. */
  lemma {:induction false} HealPlanLength(left: real, each: real)
    requires each > 0.0
    ensures |HealPlan(left, each)| == if Ceil(left / each) <= 1 then 1 else Ceil(left / each)
    decreases Ceil(left / each)
  {
    if left > each {
      DivShift(left, each);
      CeilShift(left / each);
      HealPlanLength(left - each, each);
    }
  }

  /** Every amount but the last is one full step, and none is larger than a step. */
  lemma {:induction false} HealPlanSteps(left: real, each: real)
    requires each > 0.0
    ensures var p := HealPlan(left, each);
      (forall k :: 0 <= k < |p| - 1 ==> p[k] == each) && p[|p| - 1] <= each
    decreases Ceil(left / each)
  {
    if left > each {
      DivShift(left, each);
      CeilShift(left / each);
      HealPlanSteps(left - each, each);
    }
  }

  /** A cast cure with a positive step heals in exactly two equal steps. */
  lemma CureTakesTwoSteps(h: Healing)
    requires h.each > 0.0 && h.total == 2.0 * h.each
    ensures HealPlan(h.total, h.each) == [h.each, h.each]
  {
    assert HealPlan(h.each, h.each) == [h.each];
  }

  /** `CureEffect`: what is left to heal goes down by one step per tick. */
  class CureEffect {
    const target: Unit
    const each: real
    var left: real

    constructor (h: Healing)
      ensures target == h.target && left == h.total && each == h.each
    {
      target := h.target;
      left := h.total;
      each := h.each;
    }

    /**
     * `on_step`: while more than one step is left, heal one step and stay pending; otherwise
     * heal what is left, clear it and finish. `amount` is what was added to HP before
     * `apply_HP`, which ignores a dead target and clamps to [0, MAX_HP].
     */
    method Step() returns (pending: bool, amount: real)
      modifies this`left, target.board`hp, target.board`alive, target.board`deaths
      ensures pending <==> old(left) > each
      ensures amount == if pending then each else old(left)
      ensures left == if pending then old(left) - each else 0.0
      ensures target.board.Vital() == ApplyHp(old(target.board.Vital()), target.board.maxHp, old(target.board.hp) + amount)
      ensures each > 0.0 ==>
        if pending then [amount] + HealPlan(left, each) == HealPlan(old(left), each)
        else [amount] == HealPlan(old(left), each)
    {
      var board := target.board;
      if left > each {
        board.ApplyHP(board.hp + each);
        left := left - each;
        return true, each;
      }
      amount := left;
      board.ApplyHP(board.hp + left);
      left := 0.0;
      pending := false;
    }
  }

  /**
   * The scheduler stepping one cure until it finishes: the amounts healed are the heal plan,
   * so they add up to the total and take ceil(total / each) steps.
   */
  method RunCure(e: CureEffect) returns (amounts: seq<real>)
    requires e.each > 0.0
    modifies e`left, e.target.board`hp, e.target.board`alive, e.target.board`deaths
    ensures amounts == HealPlan(old(e.left), e.each)
    ensures Sum(amounts) == old(e.left) && e.left == 0.0
  {
    ghost var plan := HealPlan(e.left, e.each);
    HealPlanSum(e.left, e.each);
    amounts := [];
    var pending := true;
    while pending
      invariant pending ==> amounts + HealPlan(e.left, e.each) == plan
      invariant !pending ==> amounts == plan && e.left == 0.0
      decreases pending, Ceil(e.left / e.each)
    {
      ghost var before := e.left;
      var amount;
      ghost var rest := amounts;
      pending, amount := e.Step();
      amounts := amounts + [amount];
      if pending {
        CureGoesOn(rest, amount, before, e.left, e.each, plan);
      } else {
        assert rest + [amount] == plan;
      }
    }
  }

  /** A step that leaves the cure pending takes its amount off the plan and one step off its length. */
  lemma CureGoesOn(rest: seq<real>, amount: real, before: real, left: real, each: real, plan: seq<real>)
    requires each > 0.0 && left == before - each
    requires rest + HealPlan(before, each) == plan
    requires [amount] + HealPlan(left, each) == HealPlan(before, each)
    ensures (rest + [amount]) + HealPlan(left, each) == plan
    ensures Ceil(left / each) == Ceil(before / each) - 1
  {
    DivShift(before, each);
    CeilShift(before / each);
    Assoc(rest, [amount], HealPlan(left, each));
  }

  // ---------------------------------------------------------------- casting

  /**
   * `Cure.cast`: nothing without a target unit or with a level of 0, nothing when the
   * target is out of reach; otherwise the skill levels up and a cure of the target is made.
   */
  method CureCast(emitter: Unit, skill: Skill, target: Unit?, distance: real, levelUp: real) returns (r: Option<Healing>)
    modifies emitter.caster`learnt
    ensures var level := old(emitter.caster.Level(skill));
      r.Some? <==> target != null && level != 0.0 && distance <= SkillDistance(level)
    ensures r.Some? ==> target != null && r.value == old(HealingOf(target, emitter.caster.Level(skill)))
    ensures emitter.caster.learnt ==
      if r.Some? then old(emitter.caster.learnt)[skill := old(emitter.caster.learnt[skill]) + levelUp]
      else old(emitter.caster.learnt)
  {
    var level := emitter.caster.Level(skill);
    if target == null || level == 0.0 {
      return None;
    }
    if distance > SkillDistance(level) {
      return None;
    }
    var h := HealingOf(target, level);
    emitter.caster.LevelUp(skill, levelUp);
    return Some(h);
  }

  /**
   * `FireBall.cast`: nothing without a target unit or with a level of 0; otherwise the
   * skill levels up and an area attack is made, with the reach and damage of the level
   * read before the level-up.
   */
  method FireBallCast(emitter: Unit, skill: Skill, target: Unit?, levelUp: real) returns (r: Option<Attack>)
    modifies emitter.caster`learnt
    ensures var level := old(emitter.caster.Level(skill));
      && (r.Some? <==> target != null && level != 0.0)
      && (r.Some? ==> target != null && r.value == Attack(emitter, target, FireBallAtk(level), SkillDist(level), 1.0))
    ensures emitter.caster.learnt ==
      if r.Some? then old(emitter.caster.learnt)[skill := old(emitter.caster.learnt[skill]) + levelUp]
      else old(emitter.caster.learnt)
  {
    var level := emitter.caster.Level(skill);
    if target == null || level == 0.0 {
      return None;
    }
    emitter.caster.LevelUp(skill, levelUp);
    return Some(Attack(emitter, target, FireBallAtk(level), SkillDist(level), 1.0));
  }

  // ---------------------------------------------------------------- books

  /** The skill a book teaches. */
  function Taught(k: BookKind): SkillKind
  {
    match k
    case PasterBook => Cure
    case RudiFireBook => FireBall
  }

  /** `condition` of each book: MP, INT and SPR above the book's thresholds, all strict. */
  predicate Condition(k: BookKind, b: Board)
    reads b`mp, b`INT, b`SPR
    ensures Condition(k, b) ==> b.mp > 5.0 && b.INT > 3.0 && b.SPR > 3.0
  {
    match k
    case PasterBook => b.mp > 5.0 && b.INT > 3.0 && b.SPR > 3.0
    case RudiFireBook => b.mp > 5.0 && b.INT > 5.0 && b.SPR > 5.0
  }

  /** Whatever satisfies the fire book's condition satisfies the cure book's. */
  lemma FireBookIsStricter(b: Board)
    ensures Condition(RudiFireBook, b) ==> Condition(PasterBook, b)
    ensures b.mp > 5.0 && b.INT == 4.0 && b.SPR == 4.0 ==> Condition(PasterBook, b) && !Condition(RudiFireBook, b)
  {
  }

  /** Some learnt skill is of kind k. */
  predicate KnowsKind(learnt: map<Skill, real>, k: SkillKind)
  {
    exists s :: s in learnt && s.kind == k
  }

  /** No two learnt skills are of the same kind. */
  ghost predicate OneSkillPerKind(learnt: map<Skill, real>)
  {
    forall s, t :: s in learnt && t in learnt && s.kind == t.kind ==> s == t
  }

  /**
   * `Book.on_activated` as written: when the reader meets the condition, `imply` makes a new
   * skill object and `learn` is asked to learn it. Skills are keyed by identity, so a new
   * object is never known and the learning always succeeds; the book is then removed.
   */
  method BookOnActivatedAsWritten(book: Item, u: Unit) returns (ok: bool, skill: Option<Skill>)
    requires book.kind.Book? && u.Wired()
    modifies u.caster`learnt, u.bag`items, u.bag`curCapacity, u.board`STR, u.board`DEX, u.board`attackDist, book`isEquipped
    ensures ok <==> old(Condition(book.kind.book, u.board))
    ensures ok ==> (skill.Some? && fresh(skill.value) && skill.value.kind == Taught(book.kind.book)
      && u.caster.learnt == old(u.caster.learnt)[skill.value := 1.0]
      && u.bag.items == old(u.bag.items) - {book})
    ensures ok && book in old(u.bag.items) ==> u.bag.curCapacity == old(u.bag.curCapacity) - book.weight
    ensures !ok ==> u.caster.learnt == old(u.caster.learnt) && u.bag.items == old(u.bag.items)
    ensures !ok ==> u.bag.curCapacity == old(u.bag.curCapacity)
  {
    if !Condition(book.kind.book, u.board) {
      return false, None;
    }
    var s := new Skill(Taught(book.kind.book));
    ok := u.caster.Learn(s);
    if ok {
      var _ := u.bag.RemoveItem(book);
    }
    skill := Some(s);
  }

  /**
   * `Book.on_activated` as evidently intended: a reader who already knows a skill of the
   * kind the book teaches learns nothing and keeps the book.
   */
  method BookOnActivated(book: Item, u: Unit) returns (ok: bool, skill: Option<Skill>)
    requires book.kind.Book? && u.Wired()
    modifies u.caster`learnt, u.bag`items, u.bag`curCapacity, u.board`STR, u.board`DEX, u.board`attackDist, book`isEquipped
    ensures ok <==> old(Condition(book.kind.book, u.board)) && !old(KnowsKind(u.caster.learnt, Taught(book.kind.book)))
    ensures ok ==> (skill.Some? && fresh(skill.value) && skill.value.kind == Taught(book.kind.book)
      && u.caster.learnt == old(u.caster.learnt)[skill.value := 1.0]
      && u.bag.items == old(u.bag.items) - {book})
    ensures ok && book in old(u.bag.items) ==> u.bag.curCapacity == old(u.bag.curCapacity) - book.weight
    ensures !ok ==> skill.None? && u.caster.learnt == old(u.caster.learnt) && u.bag.items == old(u.bag.items)
    ensures !ok ==> u.bag.curCapacity == old(u.bag.curCapacity)
    ensures old(OneSkillPerKind(u.caster.learnt)) ==> OneSkillPerKind(u.caster.learnt)
  {
    var k := Taught(book.kind.book);
    if !Condition(book.kind.book, u.board) || KnowsKind(u.caster.learnt, k) {
      return false, None;
    }
    var s := new Skill(k);
    ok := u.caster.Learn(s);
    var _ := u.bag.RemoveItem(book);
    skill := Some(s);
  }

  /** A fresh unit able to read a cure book, holding two of them. */
  method CureReader() returns (u: Unit, first: Item, second: Item)
    ensures fresh(u) && fresh(u.caster) && fresh(u.bag) && fresh(u.board) && u.Wired()
    ensures fresh(first) && fresh(second) && first != second
    ensures first.kind == Book(PasterBook) && second.kind == Book(PasterBook)
    ensures u.bag.items == {first, second} && u.caster.learnt == map[]
    ensures Condition(PasterBook, u.board)
  {
    var board := new Board();
    board.mp, board.INT, board.SPR := 6.0, 4.0, 4.0;
    var bag := new Bag(board);
    var caster := new Caster();
    u := new Unit("reader", board, bag, caster, null, false);
    first := new Item.Other(Book(PasterBook), 0);
    second := new Item.Other(Book(PasterBook), 0);
    var added := bag.AddItem(first);
    added := bag.AddItem(second);
  }

  /** As written, reading two cure books teaches two separate Cure skills and uses up both books. */
  method ReadTwoBooksAsWritten() returns (u: Unit, s: Skill, t: Skill)
    ensures s != t && s.kind == Cure && t.kind == Cure
    ensures s in u.caster.learnt && t in u.caster.learnt
    ensures !OneSkillPerKind(u.caster.learnt) && u.bag.items == {}
  {
    var first, second;
    u, first, second := CureReader();
    var ok, skill := BookOnActivatedAsWritten(first, u);
    s := skill.value;
    ok, skill := BookOnActivatedAsWritten(second, u);
    t := skill.value;
  }

  /** Intended: the second book is refused and stays in the bag; one Cure skill is known. */
  method ReadTwoBooks() returns (u: Unit, s: Skill, second: Item)
    ensures u.caster.learnt == map[s := 1.0] && s.kind == Cure
    ensures u.bag.items == {second} && second.kind == Book(PasterBook)
  {
    var first;
    u, first, second := CureReader();
    var ok, skill := BookOnActivated(first, u);
    s := skill.value;
    assert KnowsKind(u.caster.learnt, Cure);
    ok, skill := BookOnActivated(second, u);
  }
}
