/**
 * Damage and its reception: `Damage`, `DamanageAccepter` and `Dodger` (core.py:626-698).
 *
 * The two draws of `random.random()` are parameters (`draw`). A shield is modelled by its
 * value; the shield lists are sequences of values the accepter owns.
 */
module Combat {

  import opened Util
  import opened Stats

  datatype Damage = Damage(focus: real, realDamage: real, physical: real, magical: real)

  /** The critical-hit rule of `on_damage`: physical and magical damage double when the draw beats the ratio. */
  function Critical(d: Damage, draw: real, spr: real, dex: real): (r: Damage)
    ensures r.focus == d.focus && r.realDamage == d.realDamage
    ensures r == d || (r.physical == 2.0 * d.physical && r.magical == 2.0 * d.magical)
  {
    if draw > GetRatio(1.0 + 0.9 * spr * 0.6 * dex - d.focus) then
      d.(physical := 2.0 * d.physical, magical := 2.0 * d.magical)
    else d
  }

  /**
   * The focus of a hit raises the chance of a critical: once the focus exceeds
   * 1 + 0.54 * SPR * DEX, every draw in [0, 1) doubles the damage.
   */
  lemma FocusForcesCritical(d: Damage, draw: real, spr: real, dex: real)
    requires d.focus > 1.0 + 0.54 * spr * dex
    requires draw >= 0.0
    ensures Critical(d, draw, spr, dex).physical == 2.0 * d.physical
    ensures Critical(d, draw, spr, dex).magical == 2.0 * d.magical
  {
    assert 0.9 * spr * 0.6 * dex == 0.54 * spr * dex;
    assert GetRatio(1.0 + 0.9 * spr * 0.6 * dex - d.focus) < 0.0;
  }

  /** A draw of 0 never doubles a hit whose focus is at most 1 + 0.54 * SPR * DEX. */
  lemma LowFocusZeroDrawNoCritical(d: Damage, spr: real, dex: real)
    requires d.focus <= 1.0 + 0.54 * spr * dex
    ensures Critical(d, 0.0, spr, dex) == d
  {
    assert 0.9 * spr * 0.6 * dex == 0.54 * spr * dex;
    assert GetRatio(1.0 + 0.9 * spr * 0.6 * dex - d.focus) >= 0.0;
  }

  function Sum(s: seq<real>): real
  {
    if s == [] then 0.0 else s[0] + Sum(s[1..])
  }

  function Max(a: real, b: real): real { if a < b then b else a }

  /** Shield values after a hit and the damage the shields let through. */
  datatype Absorbed = Absorbed(shields: seq<real>, left: real)

  /**
   * One shield loop of `on_damage`: shields in order soak up the damage until it is
   * used up; a shield larger than what remains keeps the difference, the others drop to 0.
   */
  function DrainShields(shields: seq<real>, dmg: real): (r: Absorbed)
    ensures |r.shields| == |shields|
    ensures dmg <= 0.0 ==> r == Absorbed(shields, dmg)
    decreases |shields|
  {
    if shields == [] || dmg <= 0.0 then Absorbed(shields, dmg)
    else if shields[0] > dmg then Absorbed([shields[0] - dmg] + shields[1..], 0.0)
    else
      var rest := DrainShields(shields[1..], dmg - shields[0]);
      Absorbed([0.0] + rest.shields, rest.left)
  }

  /** Damage is conserved: what the shields lose plus what gets through is the hit. */
  lemma {:induction false} DrainConserves(shields: seq<real>, dmg: real)
    ensures Sum(DrainShields(shields, dmg).shields) + dmg == Sum(shields) + DrainShields(shields, dmg).left
    decreases |shields|
  {
    if shields == [] || dmg <= 0.0 {
    } else if shields[0] > dmg {
      assert ([shields[0] - dmg] + shields[1..])[1..] == shields[1..];
    } else {
      DrainConserves(shields[1..], dmg - shields[0]);
      var rest := DrainShields(shields[1..], dmg - shields[0]);
      assert ([0.0] + rest.shields)[1..] == rest.shields;
    }
  }

  ghost predicate NonNegative(s: seq<real>)
  {
    forall k :: 0 <= k < |s| ==> s[k] >= 0.0
  }

  lemma {:induction false} SumNonNegative(s: seq<real>)
    requires NonNegative(s)
    ensures Sum(s) >= 0.0
    decreases |s|
  {
    if s != [] {
      SumNonNegative(s[1..]);
    }
  }

  /**
   * With non-negative shields, a non-negative hit gets through exactly by the part that
   * exceeds the shields' total, and every shield keeps a value between 0 and its old one.
   */
  lemma {:induction false} DrainLetsThroughExcess(shields: seq<real>, dmg: real)
    requires NonNegative(shields) && dmg >= 0.0
    ensures DrainShields(shields, dmg).left == Max(0.0, dmg - Sum(shields))
    ensures forall k :: 0 <= k < |shields| ==> 0.0 <= DrainShields(shields, dmg).shields[k] <= shields[k]
    decreases |shields|
  {
    SumNonNegative(shields);
    if shields == [] || dmg <= 0.0 {
    } else if shields[0] > dmg {
      SumNonNegative(shields[1..]);
    } else {
      DrainLetsThroughExcess(shields[1..], dmg - shields[0]);
    }
  }

  /** The total of a non-empty prefix is its first element plus the total of the rest. */
  lemma SumPrefix(s: seq<real>, k: nat)
    requires 0 < k <= |s|
    ensures Sum(s[..k]) == s[0] + Sum(s[1..][..k - 1])
  {
    assert s[..k][1..] == s[1..][..k - 1];
  }

  /**
   * The shields drain front to back: shield k loses whatever of the hit the shields before it
   * did not absorb, and never goes below 0.
   */
  lemma {:induction false} DrainFrontToBack(shields: seq<real>, dmg: real)
    requires NonNegative(shields)
    ensures forall k :: 0 <= k < |shields| ==>
      DrainShields(shields, dmg).shields[k] == Max(0.0, shields[k] - Max(0.0, dmg - Sum(shields[..k])))
    decreases |shields|
  {
    if shields == [] {
    } else if dmg <= 0.0 {
      forall k | 0 <= k < |shields|
        ensures Max(0.0, dmg - Sum(shields[..k])) == 0.0
      {
        SumNonNegative(shields[..k]);
      }
    } else {
      var r := DrainShields(shields, dmg);
      forall k | 0 < k < |shields|
        ensures Sum(shields[..k]) == shields[0] + Sum(shields[1..][..k - 1]) >= shields[0]
      {
        SumPrefix(shields, k);
        SumNonNegative(shields[1..][..k - 1]);
      }
      if shields[0] <= dmg {
        DrainFrontToBack(shields[1..], dmg - shields[0]);
        assert forall k :: 0 < k < |shields| ==> r.shields[k] == DrainShields(shields[1..], dmg - shields[0]).shields[k - 1];
      }
    }
  }

  /** Shields already gone through, followed by the drain of the rest. */
  function Behind(done: seq<real>, a: Absorbed): Absorbed
  {
    Absorbed(done + a.shields, a.left)
  }

  /** `apply_HP(HP - x)` when x is non-zero, as each of the three hits of `on_damage` is applied. */
  function Hit(v: Vitals, maxHp: real, x: real): Vitals
  {
    if x != 0.0 then ApplyHp(v, maxHp, v.hp - x) else v
  }

  /** The hits of `on_damage` in turn. */
  function ApplyHits(v: Vitals, maxHp: real, hits: seq<real>): (r: Vitals)
    ensures !v.alive ==> r == v
    ensures DeathFiredOnce(v) ==> DeathFiredOnce(r)
    ensures (forall k :: 0 <= k < |hits| ==> hits[k] == 0.0) ==> r == v
    decreases |hits|
  {
    if hits == [] then v
    else ApplyHits(Hit(v, maxHp, hits[0]), maxHp, hits[1..])
  }

  lemma ApplyThreeHits(v: Vitals, maxHp: real, a: real, b: real, c: real)
    ensures ApplyHits(v, maxHp, [a, b, c]) == Hit(Hit(Hit(v, maxHp, a), maxHp, b), maxHp, c)
  {
    var v1 := Hit(v, maxHp, a);
    var v2 := Hit(v1, maxHp, b);
    assert [a, b, c][1..] == [b, c];
    assert [b, c][1..] == [c];
    assert [c][1..] == [];
    assert ApplyHits(v2, maxHp, [c]) == ApplyHits(Hit(v2, maxHp, c), maxHp, []);
    assert ApplyHits(v1, maxHp, [b, c]) == ApplyHits(v2, maxHp, [c]);
  }

  /** `Dodger.dodge`: no dodge against a focus above 3 * SPR; otherwise the draw must beat the ratio. */
  function Dodges(focus: real, spr: real, dex: real, con: real, draw: real): (r: bool)
    ensures focus > 3.0 * spr ==> !r
    ensures focus <= 3.0 * spr && draw >= 1.0 ==> r
    ensures draw <= 0.0 && focus >= 0.2 * spr + 0.7 * dex + 0.1 * con ==> !r
  {
    if focus > 3.0 * spr then false
    else draw > GetRatio(focus - 0.2 * spr - 0.7 * dex - 0.1 * con)
  }

  /** A higher draw never turns a dodge into a hit. */
  lemma DodgeMonotone(focus: real, spr: real, dex: real, con: real, draw: real, higher: real)
    requires Dodges(focus, spr, dex, con, draw) && draw <= higher
    ensures Dodges(focus, spr, dex, con, higher)
  {
  }

  /**
   * The chance to dodge: a draw of 0 dodges exactly when the focus is at most 3 * SPR and
   * below 0.2 * SPR + 0.7 * DEX + 0.1 * CON; no draw in [0, 1) dodges a focus above 3 * SPR.
   */
  lemma DodgeAtZero(focus: real, spr: real, dex: real, con: real)
    ensures Dodges(focus, spr, dex, con, 0.0) <==>
              focus <= 3.0 * spr && focus < 0.2 * spr + 0.7 * dex + 0.1 * con
    ensures focus > 3.0 * spr ==> forall draw :: !Dodges(focus, spr, dex, con, draw)
  {
    var x := focus - 0.2 * spr - 0.7 * dex - 0.1 * con;
    assert GetRatio(x) < 0.0 <==> x < 0.0;
  }

  class DamageAccepter {
    const board: Board
    var enable: bool
    var physicalShields: seq<real>
    var magicalShields: seq<real>

    /** `init`: enabled and without shields. */
    constructor (board: Board)
      ensures this.board == board && enable && physicalShields == [] && magicalShields == []
    {
      this.board := board;
      enable := true;
      physicalShields := [];
      magicalShields := [];
    }

    method SetEnable(value: bool)
      modifies this`enable
      ensures enable == value
    {
      enable := value;
    }

    /** `on_damage`: the critical roll, both shield loops, then up to three `apply_HP` calls. */
    method OnDamage(damage: Damage, draw: real)
      modifies this`physicalShields, this`magicalShields, board`hp, board`alive, board`deaths
      ensures !enable ==> physicalShields == old(physicalShields) && magicalShields == old(magicalShields)
      ensures !enable ==> board.Vital() == old(board.Vital())
      ensures enable ==>
        var d := Critical(damage, draw, board.SPR, board.DEX);
        var p := DrainShields(old(physicalShields), d.physical);
        var m := DrainShields(old(magicalShields), d.magical);
        physicalShields == p.shields && magicalShields == m.shields
        && board.Vital() == ApplyHits(old(board.Vital()), board.maxHp, [p.left, m.left, d.realDamage])
    {
      if !enable {
        return;
      }
      var d := Critical(damage, draw, board.SPR, board.DEX);
      var phys;
      physicalShields, phys := DrainShieldsLoop(physicalShields, d.physical);
      var mag;
      magicalShields, mag := DrainShieldsLoop(magicalShields, d.magical);
      TakeHits(board, phys, mag, d.realDamage);
    }
  }

  /** The three `apply_HP` calls that end `on_damage`, each skipped when its amount is 0. */
  method TakeHits(board: Board, physical: real, magical: real, realDamage: real)
    modifies board`hp, board`alive, board`deaths
    ensures board.Vital() == ApplyHits(old(board.Vital()), board.maxHp, [physical, magical, realDamage])
  {
    ghost var v0 := board.Vital();
    if physical != 0.0 {
      board.ApplyHP(board.hp - physical);
    }
    assert board.Vital() == Hit(v0, board.maxHp, physical);
    if magical != 0.0 {
      board.ApplyHP(board.hp - magical);
    }
    assert board.Vital() == Hit(Hit(v0, board.maxHp, physical), board.maxHp, magical);
    if realDamage != 0.0 {
      board.ApplyHP(board.hp - realDamage);
    }
    ApplyThreeHits(v0, board.maxHp, physical, magical, realDamage);
  }

  /** The loop over one shield list, in place on its values. */
  method DrainShieldsLoop(shields: seq<real>, dmg: real) returns (out: seq<real>, left: real)
    ensures Absorbed(out, left) == DrainShields(shields, dmg)
  {
    out, left := shields, dmg;
    var i := 0;
    while i < |out|
      invariant 0 <= i <= |out| == |shields|
      invariant Behind(out[..i], DrainShields(out[i..], left)) == DrainShields(shields, dmg)
    {
      if left <= 0.0 {
        DrainStopped(out, i, left);
        return;
      }
      if out[i] > left {
        DrainPartly(out, i, left);
        out := out[i := out[i] - left];
        left := 0.0;
        return;
      }
      DrainWhole(out, i, left);
      left := left - out[i];
      out := out[i := 0.0];
      i := i + 1;
    }
    assert out[..i] == out;
    EmptySuffix(out);
  }

  /** No damage left: the rest of the shields stay as they are. */
  lemma DrainStopped(s: seq<real>, i: nat, left: real)
    requires i <= |s| && left <= 0.0
    ensures Behind(s[..i], DrainShields(s[i..], left)) == Absorbed(s, left)
  {
    assert s[..i] + s[i..] == s;
  }

  /** A shield larger than the damage left keeps the difference and ends the loop. */
  lemma DrainPartly(s: seq<real>, i: nat, left: real)
    requires i < |s| && 0.0 < left < s[i]
    ensures Behind(s[..i], DrainShields(s[i..], left)) == Absorbed(s[i := s[i] - left], 0.0)
  {
    var tail := s[i..];
    assert tail[0] == s[i] && tail[1..] == s[i + 1..];
    assert s[..i] + ([s[i] - left] + s[i + 1..]) == s[i := s[i] - left];
  }

  /** A shield no larger than the damage left drops to 0 and the loop goes on with the rest. */
  lemma DrainWhole(s: seq<real>, i: nat, left: real)
    requires i < |s| && 0.0 < left && s[i] <= left
    ensures var t := s[i := 0.0];
      Behind(s[..i], DrainShields(s[i..], left)) == Behind(t[..i + 1], DrainShields(t[i + 1..], left - s[i]))
  {
    var t := s[i := 0.0];
    var tail := s[i..];
    assert tail[0] == s[i] && tail[1..] == s[i + 1..] == t[i + 1..];
    assert t[..i + 1] == s[..i] + [0.0];
    var rest := DrainShields(s[i + 1..], left - s[i]);
    Assoc(s[..i], [0.0], rest.shields);
  }
}
