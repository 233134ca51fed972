/**
 * Skills and the component that knows them: `Skill` and `Caster` (core.py:765-805), with
 * the casting costs of `Cure` (items/books/cure.py:33) and `FireBall` (items/books/fireball.py:12).
 */
module Skills {

  datatype SkillKind = Cure | FireBall

  /** `casting_consumption` of each concrete skill. */
  function CastingConsumption(k: SkillKind): (r: int)
    ensures 1 <= r <= 2
    ensures r == 2 <==> k == Cure
  {
    match k
    case Cure => 2
    case FireBall => 1
  }

  /** A skill object: skills are compared by identity, as the dictionary of `Caster` does. */
  class Skill {
    const kind: SkillKind

    constructor (kind: SkillKind)
      ensures this.kind == kind
    {
      this.kind := kind;
    }
  }

  /** `learn` on the skill map: a new skill starts at level 1.0, a known one is left alone. */
  function Learnt(m: map<Skill, real>, s: Skill): (r: map<Skill, real>)
    ensures s in r && (s !in m ==> r[s] == 1.0)
    ensures s in m ==> r == m
    ensures forall t :: t in m && t != s ==> t in r && r[t] == m[t]
    ensures forall t :: t in r && t != s ==> t in m
  {
    if s in m then m else m[s := 1.0]
  }

  /** `forget` on the skill map: the skill is dropped, every other entry kept. */
  function Forgotten(m: map<Skill, real>, s: Skill): (r: map<Skill, real>)
    ensures s !in r
    ensures forall t :: t in m && t != s ==> t in r && r[t] == m[t]
    ensures forall t :: t in r && t != s ==> t in m
  {
    m - {s}
  }

  /** Forgetting a skill just learnt gives the skill map back. */
  lemma ForgetUndoesLearn(m: map<Skill, real>, s: Skill)
    requires s !in m
    ensures Forgotten(Learnt(m, s), s) == m
  {
    assert Forgotten(Learnt(m, s), s).Keys == m.Keys;
  }

  class Caster {
    var learnt: map<Skill, real>

    /** `init`: nothing learnt. */
    constructor ()
      ensures learnt == map[]
    {
      learnt := map[];
    }

    predicate HasSkill(s: Skill)
      reads this
    {
      s in learnt
    }

    /** `level`: the learnt level, or 0 for a skill not learnt. */
    function Level(s: Skill): (r: real)
      reads this
      ensures s !in learnt ==> r == 0.0
      ensures s in learnt ==> r == learnt[s]
    {
      if s in learnt then learnt[s] else 0.0
    }

    /** `level_up`: raises a known skill by the amount, ignores an unknown one. */
    method LevelUp(s: Skill, value: real)
      modifies this`learnt
      ensures s in old(learnt) ==> learnt == old(learnt)[s := old(learnt)[s] + value]
      ensures s !in old(learnt) ==> learnt == old(learnt)
    {
      if s in learnt {
        learnt := learnt[s := learnt[s] + value];
      }
    }

    /** `learn`: succeeds only for a skill not yet known. */
    method Learn(s: Skill) returns (ok: bool)
      modifies this`learnt
      ensures ok <==> s !in old(learnt)
      ensures learnt == Learnt(old(learnt), s)
    {
      if s in learnt {
        return false;
      }
      learnt := learnt[s := 1.0];
      return true;
    }

    /** `forget`: succeeds only for a known skill. */
    method Forget(s: Skill) returns (ok: bool)
      modifies this`learnt
      ensures ok <==> s in old(learnt)
      ensures learnt == Forgotten(old(learnt), s)
    {
      if s !in learnt {
        return false;
      }
      learnt := learnt - {s};
      return true;
    }
  }
}
