/**
 * A unit's statistics and their bookkeeping: `Board` (core.py:548-620).
 *
 * Statistics are `real`. The `on_death` event is recorded by counting its firings in
 * `deaths`; its listeners are not part of this model.
 */
module Stats {

  import opened Util

  /** Python's `int(x)` on a float: truncation toward zero. */
  function Trunc(x: real): (r: int)
    ensures x >= 0.0 ==> r as real <= x < r as real + 1.0
    ensures x < 0.0 ==> r as real - 1.0 < x <= r as real
  {
    if x >= 0.0 then x.Floor else -((-x).Floor)
  }

  /** `MAX_EFFORTS` as `apply_CON` and `apply_SPR` compute it. */
  function MaxEfforts(con: real, spr: real): (r: int)
    ensures con >= 0.0 && spr >= 0.0 ==> 10 <= r && (r - 10) as real <= 0.7 * con + 0.3 * spr < (r - 10) as real + 2.0
  {
    10 + Trunc(0.7 * con) + Trunc(0.3 * spr)
  }

  /** Truncation, unlike flooring, rounds a negative statistic up: CON = -1 gives 10 + 0, not 10 - 1. */
  lemma MaxEffortsTruncates()
    ensures MaxEfforts(-1.0, 0.0) == 10
    ensures MaxEfforts(10.0, 10.0) == 20
  {
    assert Trunc(-0.7) == 0;
    assert Trunc(7.0) == 7;
    assert Trunc(3.0) == 3;
  }

  /** The part of a board that `apply_HP` touches. */
  datatype Vitals = Vitals(hp: real, alive: bool, deaths: nat)

  /** `on_death` has fired exactly when the unit is dead, and then once. */
  ghost predicate DeathFiredOnce(v: Vitals)
  {
    v.deaths == if v.alive then 0 else 1
  }

  /**
   * `apply_HP(value)` on values: nothing once dead; otherwise HP becomes value clamped to
   * [0, maxHp], and reaching 0 kills the unit and fires `on_death`.
   */
  function ApplyHp(v: Vitals, maxHp: real, value: real): (r: Vitals)
    ensures !v.alive ==> r == v
    ensures v.alive ==> r.hp >= 0.0 && (maxHp >= 0.0 ==> r.hp <= maxHp)
    ensures v.alive && 0.0 < value <= maxHp ==> r.hp == value && r.alive && r.deaths == v.deaths
    ensures v.alive && value <= 0.0 ==> r.hp == 0.0 && !r.alive && r.deaths == v.deaths + 1
    ensures v.alive ==> r.hp == Clamp(value, 0.0, maxHp)
    ensures v.alive ==> (r.alive <==> r.hp != 0.0)
    ensures v.alive ==> r.deaths == v.deaths + (if r.alive then 0 else 1)
    ensures v.alive && 0.0 <= maxHp < value ==> r.hp == maxHp && (r.alive <==> maxHp != 0.0)
    ensures DeathFiredOnce(v) ==> DeathFiredOnce(r)
  {
    if !v.alive then v
    else
      var hp := Clamp(value, 0.0, maxHp);
      if hp == 0.0 then Vitals(hp, false, v.deaths + 1) else Vitals(hp, true, v.deaths)
  }

  class Board {
    var STR: real
    var CON: real
    var DEX: real
    var INT: real
    var SPR: real
    var CHR: real
    var attackDist: real
    var efforts: int
    var maxEfforts: int
    var hp: real
    var mp: real
    var maxHp: real
    var maxMp: real
    var alive: bool
    /** How many times `on_death` has fired. */
    var deaths: nat

    /** The class defaults of `Board`. */
    constructor ()
      ensures STR == 0.0 && CON == 0.0 && DEX == 0.0 && INT == 0.0 && SPR == 0.0 && CHR == 0.0
      ensures attackDist == 4.0 && efforts == 10 && maxEfforts == 10
      ensures hp == 0.0 && mp == 0.0 && maxHp == 0.0 && maxMp == 0.0
      ensures alive && deaths == 0
    {
      STR, CON, DEX, INT, SPR, CHR := 0.0, 0.0, 0.0, 0.0, 0.0, 0.0;
      attackDist := 4.0;
      efforts, maxEfforts := 10, 10;
      hp, mp, maxHp, maxMp := 0.0, 0.0, 0.0, 0.0;
      alive, deaths := true, 0;
    }

    function Vital(): Vitals
      reads this
    {
      Vitals(hp, alive, deaths)
    }

    ghost predicate Valid()
      reads this
    {
      DeathFiredOnce(Vital())
    }

    method ApplySTR(value: real)
      modifies this`STR
      ensures STR == value
    {
      STR := value;
    }

    method ApplyDEX(value: real)
      modifies this`DEX
      ensures DEX == value
    {
      DEX := value;
    }

    method ApplyINT(value: real)
      modifies this`INT
      ensures INT == value
    {
      INT := value;
    }

    method ApplyCHR(value: real)
      modifies this`CHR
      ensures CHR == value
    {
      CHR := value;
    }

    method ApplyAttackDist(value: real)
      modifies this`attackDist
      ensures attackDist == value
    {
      attackDist := value;
    }

    /** `apply_CON`: sets CON and MAX_HP, clamps HP, recomputes and clamps the efforts. */
    method ApplyCON(value: real)
      modifies this`CON, this`maxHp, this`hp, this`maxEfforts, this`efforts
      ensures CON == value && maxHp == value && hp == Clamp(old(hp), 0.0, value)
      ensures maxEfforts == MaxEfforts(value, SPR)
      ensures efforts == ClampInt(old(efforts), 0, maxEfforts)
    {
      CON := value;
      maxHp := value;
      hp := Clamp(hp, 0.0, maxHp);
      maxEfforts := 10 + Trunc(0.7 * value) + Trunc(0.3 * SPR);
      efforts := ClampInt(efforts, 0, maxEfforts);
    }

    /** `apply_SPR`: sets SPR and MAX_MP = SPR / 2, clamps MP, recomputes and clamps the efforts. */
    method ApplySPR(value: real)
      modifies this`SPR, this`maxMp, this`mp, this`maxEfforts, this`efforts
      ensures SPR == value && maxMp == value / 2.0 && mp == Clamp(old(mp), 0.0, value / 2.0)
      ensures maxEfforts == MaxEfforts(CON, value)
      ensures efforts == ClampInt(old(efforts), 0, maxEfforts)
    {
      SPR := value;
      maxMp := value / 2.0;
      mp := Clamp(mp, 0.0, maxMp);
      maxEfforts := 10 + Trunc(0.7 * CON) + Trunc(0.3 * value);
      efforts := ClampInt(efforts, 0, maxEfforts);
    }

    /** `apply_HP`. */
    method ApplyHP(value: real)
      modifies this`hp, this`alive, this`deaths
      ensures Vital() == ApplyHp(old(Vital()), maxHp, value)
    {
      if !alive {
        return;
      }
      hp := Clamp(value, 0.0, maxHp);
      if hp == 0.0 {
        alive := false;
        deaths := deaths + 1;
      }
    }

    /** `consume_efforts`: succeeds only for a living unit with strictly more efforts than asked. */
    method ConsumeEfforts(value: int) returns (ok: bool)
      modifies this`efforts
      ensures ok <==> old(alive) && old(efforts) > value
      ensures efforts == if ok then old(efforts) - value else old(efforts)
    {
      if !alive {
        return false;
      }
      if efforts > value {
        efforts := efforts - value;
        return true;
      }
      return false;
    }
  }
}
