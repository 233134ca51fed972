/**
 * Attacks: `AttackEffect.on_step` (core.py:498-545), the normal attack of
 * actions/attack.py and the damage of a fire ball (items/books/fireball.py:28-33).
 *
 * The targets an attack selects by geometry are given as input, and so are the random
 * draws of each target's dodge and critical rolls.
 */
module Battle {

  import opened Util
  import opened Stats
  import opened Combat
  import opened Units

  /** How an attack computes its damage when it resolves. */
  datatype DamageRule = NormalAtk | FireBallAtk(level: real)

  /**
   * The damage functions: `_create_normal_atk` and the fire ball's lambda. Both read only
   * the attacker's board, at the time the attack resolves; the fire ball's level is the one
   * captured when it was cast.
   */
  function DamageOf(rule: DamageRule, b: Board): (d: Damage)
    reads b`STR, b`CON, b`DEX, b`CHR, b`SPR, b`INT
    ensures d.realDamage == 0.0
    ensures rule.NormalAtk? ==> d.magical == 0.0
    ensures rule.FireBallAtk? ==> d.physical == 0.0
  {
    match rule
    case NormalAtk =>
      Damage(1.0 + 0.3 * b.DEX + 0.1 * b.CHR + 0.6 * b.SPR, 0.0, 1.0 + 0.8 * b.STR + 0.1 * b.CON + 0.6 * b.DEX, 0.0)
    case FireBallAtk(level) =>
      Damage(0.5 * b.SPR + level + 0.22 * b.INT, 0.0, 0.0, 0.18 * b.SPR + 2.0 * level + 0.32 * b.INT)
  }

  /** A normal attack deals only physical damage, at least 1, with focus at least 1, when the attacker's statistics are non-negative. */
  lemma NormalAtkIsPhysical(b: Board)
    requires b.STR >= 0.0 && b.CON >= 0.0 && b.DEX >= 0.0 && b.CHR >= 0.0 && b.SPR >= 0.0
    ensures var d := DamageOf(NormalAtk, b);
      d.physical >= 1.0 && d.focus >= 1.0 && d.magical == 0.0 && d.realDamage == 0.0
  {
  }

  /** A fire ball deals only magical damage, at least twice its level, when SPR and INT are non-negative. */
  lemma FireBallIsMagical(b: Board, level: real)
    requires b.SPR >= 0.0 && b.INT >= 0.0
    ensures var d := DamageOf(FireBallAtk(level), b);
      d.magical >= 2.0 * level && d.focus >= level && d.physical == 0.0 && d.realDamage == 0.0
  {
  }

  /** An `AttackEffect`. */
  datatype Attack = Attack(attacker: Unit, target: Unit, rule: DamageRule, distance: real, aoe: real)

  /**
   * The targets of `on_step`: with an area of effect the units along the line (given);
   * otherwise the target alone when the measured distance is within reach, else none.
   */
  function Targets(a: Attack, measured: real, line: seq<Unit>): (r: seq<Unit>)
    ensures a.aoe == 0.0 ==> (r == [a.target] <==> measured <= a.distance) && (r == [] <==> measured > a.distance)
  {
    if a.aoe != 0.0 then line
    else if measured <= a.distance then [a.target]
    else []
  }

  /** The two random draws a target may consume: its dodge roll and the critical roll of `on_damage`. */
  datatype Draws = Draws(dodge: real, critical: real)

  /** What happens to one target in the loop of `on_step`. */
  datatype Verdict = Skip | Stop | Dodged | Strike

  /**
   * Same group (two ungrouped units included) is skipped; a target without a damage
   * accepter ends the loop; a dodging target is skipped; any other is struck.
   */
  function VerdictOf(attacker: Unit, t: Unit, rule: DamageRule, draw: real): (r: Verdict)
    reads attacker`group, t`group, attacker.board`STR, attacker.board`CON, attacker.board`DEX, attacker.board`CHR
    reads attacker.board`SPR, attacker.board`INT, t.board`SPR, t.board`DEX, t.board`CON
    ensures r == Skip <==> SameGroup(attacker, t)
    ensures r == Stop <==> !SameGroup(attacker, t) && t.accepter == null
    ensures r == Dodged ==> t.dodger && t.accepter != null
    ensures !SameGroup(attacker, t) && t.accepter != null && !t.dodger ==> r == Strike
  {
    if SameGroup(attacker, t) then Skip
    else if t.accepter == null then Stop
    else if t.dodger && Dodges(DamageOf(rule, attacker.board).focus, t.board.SPR, t.board.DEX, t.board.CON, draw) then Dodged
    else Strike
  }

  function Verdicts(attacker: Unit, targets: seq<Unit>, rule: DamageRule, draws: seq<Draws>): (r: seq<Verdict>)
    requires |draws| == |targets|
    reads attacker`group, attacker.board`STR, attacker.board`CON, attacker.board`DEX, attacker.board`CHR
    reads attacker.board`SPR, attacker.board`INT
    reads (set t | t in targets)`group, (set t | t in targets :: t.board)`SPR
    reads (set t | t in targets :: t.board)`DEX, (set t | t in targets :: t.board)`CON
    ensures |r| == |targets|
    decreases |targets|
  {
    if targets == [] then []
    else [VerdictOf(attacker, targets[0], rule, draws[0].dodge)] + Verdicts(attacker, targets[1..], rule, draws[1..])
  }

  lemma {:induction false} VerdictsAt(attacker: Unit, targets: seq<Unit>, rule: DamageRule, draws: seq<Draws>, j: int)
    requires |draws| == |targets| && 0 <= j < |targets|
    ensures Verdicts(attacker, targets, rule, draws)[j] == VerdictOf(attacker, targets[j], rule, draws[j].dodge)
    decreases |targets|
  {
    if j > 0 {
      VerdictsAt(attacker, targets[1..], rule, draws[1..], j - 1);
    }
  }

  lemma VerdictsAll(attacker: Unit, targets: seq<Unit>, rule: DamageRule, draws: seq<Draws>)
    requires |draws| == |targets|
    ensures forall j :: 0 <= j < |targets| ==>
      Verdicts(attacker, targets, rule, draws)[j] == VerdictOf(attacker, targets[j], rule, draws[j].dodge)
  {
    forall j | 0 <= j < |targets|
      ensures Verdicts(attacker, targets, rule, draws)[j] == VerdictOf(attacker, targets[j], rule, draws[j].dodge)
    {
      VerdictsAt(attacker, targets, rule, draws, j);
    }
  }

  /** The positions struck from position i on, in order. */
  function Plan(vs: seq<Verdict>, i: nat): seq<nat>
    decreases |vs| - i
  {
    if i >= |vs| then []
    else match vs[i]
      case Stop => []
      case Strike => [i] + Plan(vs, i + 1)
      case _ => Plan(vs, i + 1)
  }

  /** A target is struck iff its verdict is Strike and no earlier target stopped the loop. */
  lemma {:induction false} PlanMembers(vs: seq<Verdict>, i: nat, n: int)
    ensures n in Plan(vs, i) <==> i <= n < |vs| && vs[n] == Strike && forall m :: i <= m < n ==> vs[m] != Stop
    decreases |vs| - i
  {
    if i < |vs| && vs[i] != Stop {
      PlanMembers(vs, i + 1, n);
      if n in Plan(vs, i) && n != i {
        assert n in Plan(vs, i + 1);
      }
    }
  }

  /** One step of the plan: what position i contributes. */
  lemma PlanStep(vs: seq<Verdict>, i: nat)
    requires i < |vs|
    ensures vs[i] == Stop ==> Plan(vs, i) == []
    ensures vs[i] == Strike ==> Plan(vs, i) == [i] + Plan(vs, i + 1)
    ensures vs[i] == Skip || vs[i] == Dodged ==> Plan(vs, i) == Plan(vs, i + 1)
  {
  }

  /** The loop's progress: the positions struck so far followed by the plan from i is the whole plan. */
  lemma PlanAdvance(vs: seq<Verdict>, i: nat, struck: seq<nat>)
    requires i < |vs| && struck + Plan(vs, i) == Plan(vs, 0)
    ensures vs[i] == Stop ==> struck == Plan(vs, 0)
    ensures vs[i] == Strike ==> (struck + [i]) + Plan(vs, i + 1) == Plan(vs, 0)
    ensures vs[i] == Skip || vs[i] == Dodged ==> struck + Plan(vs, i + 1) == Plan(vs, 0)
  {
    PlanStep(vs, i);
    EmptySuffix(struck);
    Assoc(struck, [i], Plan(vs, i + 1));
  }

  /** Targets are struck in list order, each at most once. */
  lemma {:induction false} PlanIncreasing(vs: seq<Verdict>, i: nat)
    ensures forall a, b :: 0 <= a < b < |Plan(vs, i)| ==> Plan(vs, i)[a] < Plan(vs, i)[b]
    ensures forall a :: 0 <= a < |Plan(vs, i)| ==> i <= Plan(vs, i)[a]
    decreases |vs| - i
  {
    if i < |vs| {
      PlanIncreasing(vs, i + 1);
    }
  }

  /** What a hit can change about a unit: its HP, life and deaths, and the shields of its accepter. */
  datatype Standing = Standing(vital: Vitals, physical: seq<real>, magical: seq<real>)

  function StandingOf(t: Unit): Standing
    reads t.board, t.accepter
  {
    if t.accepter == null then Standing(t.board.Vital(), [], [])
    else Standing(t.board.Vital(), t.accepter.physicalShields, t.accepter.magicalShields)
  }

  /** What of a unit decides how a hit hurts it besides its standing: an enabled accepter, SPR, DEX and maxHp. */
  datatype Defence = Defence(enabled: bool, spr: real, dex: real, maxHp: real)

  function DefenceOf(t: Unit): Defence
    reads t.board, t.accepter
  {
    Defence(t.accepter != null && t.accepter.enable, t.board.SPR, t.board.DEX, t.board.maxHp)
  }

  /**
   * What `on_damage` does to a standing: nothing when there is no enabled accepter; otherwise
   * the critical rule on the unit's SPR and DEX, both shield loops, and the three hits on its HP.
   */
  function Damaged(s: Standing, f: Defence, d: Damage, draw: real): (r: Standing)
    ensures !f.enabled ==> r == s
    ensures |r.physical| == |s.physical| && |r.magical| == |s.magical|
    ensures !s.vital.alive ==> r.vital == s.vital
  {
    if !f.enabled then s
    else
      var c := Critical(d, draw, f.spr, f.dex);
      var p := DrainShields(s.physical, c.physical);
      var m := DrainShields(s.magical, c.magical);
      Standing(ApplyHits(s.vital, f.maxHp, [p.left, m.left, c.realDamage]), p.shields, m.shields)
  }

  /** No target other than the n-th has the board of the n-th. */
  predicate Alone(targets: seq<Unit>, n: nat)
    requires n < |targets|
  {
    forall j :: 0 <= j < |targets| && j != n ==> targets[j].board != targets[n].board
  }

  /** A target alone on its board is spared by strikes that all came before it. */
  lemma AloneIsSpared(targets: seq<Unit>, i: nat, struck: seq<nat>)
    requires i < |targets| && forall n :: n in struck ==> n < i
    ensures Alone(targets, i) ==> Spared(targets[i], targets, struck)
  {
  }

  /** No struck target shares the board of t. */
  ghost predicate Spared(t: Unit, targets: seq<Unit>, struck: seq<nat>)
  {
    forall n :: n in struck && n < |targets| ==> targets[n].board != t.board
  }

  function Accepters(targets: seq<Unit>): set<DamageAccepter>
  {
    set t | t in targets && t.accepter != null :: t.accepter
  }

  function Boards(targets: seq<Unit>): set<Board>
  {
    set t | t in targets :: t.board
  }

  /**
   * `AttackEffect.on_step`: the struck targets are those the plan picks, each hit through
   * its accepter's `on_damage` with damage from the attacker's board; any target whose
   * board no struck target shares is left as it was. The effect always finishes.
   */
  method AttackStep(a: Attack, measured: real, line: seq<Unit>, draws: seq<Draws>) returns (pending: bool, struck: seq<nat>)
    requires |draws| == |Targets(a, measured, line)|
    requires forall t :: t in Targets(a, measured, line) ==> t.Wired()
    modifies Accepters(Targets(a, measured, line)), Boards(Targets(a, measured, line))
    ensures !pending
    ensures struck == old(Plan(Verdicts(a.attacker, Targets(a, measured, line), a.rule, draws), 0))
    ensures forall t :: t in Targets(a, measured, line) && Spared(t, Targets(a, measured, line), struck) ==>
      StandingOf(t) == old(StandingOf(t))
    ensures forall n :: n in struck ==> n < |Targets(a, measured, line)|
    ensures forall n :: n in struck && Alone(Targets(a, measured, line), n) ==>
      StandingOf(Targets(a, measured, line)[n]) ==
      Damaged(old(StandingOf(Targets(a, measured, line)[n])), old(DefenceOf(Targets(a, measured, line)[n])),
              old(DamageOf(a.rule, a.attacker.board)), draws[n].critical)
  {
    var targets := Targets(a, measured, line);
    struck := Strikes(a, targets, draws);
    pending := false;
  }

  /** The loop of `on_step` over the targets, in order. */
  method Strikes(a: Attack, targets: seq<Unit>, draws: seq<Draws>) returns (struck: seq<nat>)
    requires |draws| == |targets|
    requires forall t :: t in targets ==> t.Wired()
    modifies Accepters(targets), Boards(targets)
    ensures struck == old(Plan(Verdicts(a.attacker, targets, a.rule, draws), 0))
    ensures forall t :: t in targets && Spared(t, targets, struck) ==> StandingOf(t) == old(StandingOf(t))
    ensures forall n :: n in struck ==> n < |targets|
    ensures forall n :: n in struck && Alone(targets, n) ==>
      StandingOf(targets[n]) ==
      Damaged(old(StandingOf(targets[n])), old(DefenceOf(targets[n])), old(DamageOf(a.rule, a.attacker.board)), draws[n].critical)
  {
    ghost var vs := Verdicts(a.attacker, targets, a.rule, draws);
    ghost var dmg := DamageOf(a.rule, a.attacker.board);
    VerdictsAll(a.attacker, targets, a.rule, draws);
    struck := [];
    var i: nat := 0;
    while i < |targets|
      invariant 0 <= i <= |targets|
      invariant struck + Plan(vs, i) == Plan(vs, 0)
      invariant forall j :: i <= j < |targets| ==> VerdictOf(a.attacker, targets[j], a.rule, draws[j].dodge) == vs[j]
      invariant forall t :: t in targets && Spared(t, targets, struck) ==> StandingOf(t) == old(StandingOf(t))
      invariant forall n :: n in struck ==> n < i
      invariant DamageOf(a.rule, a.attacker.board) == dmg
      invariant forall t :: t in targets ==> DefenceOf(t) == old(DefenceOf(t))
      invariant forall n :: n in struck && Alone(targets, n) ==>
        StandingOf(targets[n]) == Damaged(old(StandingOf(targets[n])), old(DefenceOf(targets[n])), dmg, draws[n].critical)
    {
      PlanAdvance(vs, i, struck);
      AloneIsSpared(targets, i, struck);
      var v := Resolve(a, targets[i], draws[i], targets, draws);
      if v == Stop {
        return struck;
      }
      if v == Strike {
        struck := struck + [i];
      }
      i := i + 1;
    }
    assert Plan(vs, i) == [];
    EmptySuffix(struck);
  }

  /**
   * The loop body for one target: its verdict, and for a struck target `on_damage` with the
   * damage of the rule on the attacker's board. Only a struck target's shields and HP change.
   */
  method Resolve(a: Attack, t: Unit, draw: Draws, ghost others: seq<Unit>, ghost draws: seq<Draws>) returns (v: Verdict)
    requires t.Wired() && forall u :: u in others ==> u.Wired()
    requires |draws| == |others|
    modifies (if t.accepter != null then {t.accepter} else {})`physicalShields
    modifies (if t.accepter != null then {t.accepter} else {})`magicalShields
    modifies t.board`hp, t.board`alive, t.board`deaths
    ensures v == old(VerdictOf(a.attacker, t, a.rule, draw.dodge))
    ensures v != Strike ==> StandingOf(t) == old(StandingOf(t))
    ensures v == Strike ==>
      StandingOf(t) == Damaged(old(StandingOf(t)), old(DefenceOf(t)), old(DamageOf(a.rule, a.attacker.board)), draw.critical)
    ensures forall u :: u in others && (v != Strike || u.board != t.board) ==>
      StandingOf(u) == old(StandingOf(u))
    ensures forall u :: u in others ==> DefenceOf(u) == old(DefenceOf(u))
    ensures forall j :: 0 <= j < |others| ==>
      VerdictOf(a.attacker, others[j], a.rule, draws[j].dodge) == old(VerdictOf(a.attacker, others[j], a.rule, draws[j].dodge))
  {
    if SameGroup(a.attacker, t) {
      return Skip;
    }
    var damage := DamageOf(a.rule, a.attacker.board);
    if t.accepter == null {
      return Stop;
    }
    if t.dodger && Dodges(damage.focus, t.board.SPR, t.board.DEX, t.board.CON, draw.dodge) {
      return Dodged;
    }
    t.accepter.OnDamage(damage, draw.critical);
    return Strike;
  }

  /**
   * `NormalAttack.on_step`: two efforts are consumed; on success one attack is submitted,
   * with the attacker's reach and no area, and the damage of a normal attack. The step
   * always finishes.
   */
  method NormalAttackStep(emitter: Unit, target: Unit) returns (pending: bool, submitted: seq<Attack>)
    modifies emitter.board`efforts
    ensures !pending
    ensures |submitted| <= 1
    ensures submitted != [] <==> old(emitter.board.alive) && old(emitter.board.efforts) > 2
    ensures submitted != [] ==>
      submitted == [Attack(emitter, target, NormalAtk, emitter.board.attackDist, 0.0)]
      && emitter.board.efforts == old(emitter.board.efforts) - 2
    ensures submitted == [] ==> emitter.board.efforts == old(emitter.board.efforts)
  {
    var ok := emitter.board.ConsumeEfforts(2);
    if !ok {
      return false, [];
    }
    return false, [Attack(emitter, target, NormalAtk, emitter.board.attackDist, 0.0)];
  }
}
