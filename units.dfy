/**
 * Units and parties: `Unit` (core.py:905-907) and `Group` with `same_group`, `join` and
 * `leave` (core.py:723-761). The registry of groups by name, `GameState.groups`, is the
 * class `Parties`.
 *
 * A unit's components are fixed references here: its board, bag and caster always exist,
 * its damage accepter may be absent, and it may or may not have a dodger.
 */
module Units {

  import opened Util
  import opened Stats
  import opened Inventory
  import opened Skills
  import opened Combat

  class Unit {
    const uname: string
    const board: Board
    const bag: Bag
    const caster: Caster
    /** The `DamanageAccepter` component, when the unit has one. */
    const accepter: DamageAccepter?
    /** Whether the unit has a `Dodger` component. */
    const dodger: bool
    var group: Group?

    constructor (uname: string, board: Board, bag: Bag, caster: Caster, accepter: DamageAccepter?, dodger: bool)
      ensures this.uname == uname && this.board == board && this.bag == bag && this.caster == caster
      ensures this.accepter == accepter && this.dodger == dodger && group == null
    {
      this.uname := uname;
      this.board := board;
      this.bag := bag;
      this.caster := caster;
      this.accepter := accepter;
      this.dodger := dodger;
      group := null;
    }

    /** The components belong to one entity: the accepter and the bag act on this unit's board. */
    predicate Wired()
    {
      (accepter != null ==> accepter.board == board) && bag.board == board
    }
  }

  class Group {
    var name: string
    var units: seq<Unit>
    var owner: Unit

    constructor (owner: Unit, name: string)
      ensures this.owner == owner && this.name == name && units == []
    {
      this.owner := owner;
      this.name := name;
      units := [];
    }
  }

  /** `Group.same_group`: the units' groups are the same object, which includes both being None. */
  predicate SameGroup(x: Unit, y: Unit)
    reads x`group, y`group
    ensures x == y ==> SameGroup(x, y)
    ensures SameGroup(x, y) ==> (x.group == null <==> y.group == null)
  {
    x.group == y.group
  }

  /** Two units outside any group count as being in the same group. */
  lemma UngroupedAreSameGroup(x: Unit, y: Unit)
    requires x.group == null && y.group == null
    ensures SameGroup(x, y)
  {
  }

  predicate Distinct(s: seq<Unit>)
  {
    forall i, j :: 0 <= i < j < |s| ==> s[i] != s[j]
  }

  /** `list.remove`: the first occurrence of `x` is dropped. */
  function RemoveFirst(s: seq<Unit>, x: Unit): (r: seq<Unit>)
    ensures x in s ==> |r| == |s| - 1
    ensures x !in s ==> r == s
    ensures forall y :: y in r ==> y in s
    ensures forall y :: y in s && y != x ==> y in r
  {
    if s == [] then []
    else if s[0] == x then s[1..]
    else [s[0]] + RemoveFirst(s[1..], x)
  }

  /** `list.remove` keeps the order: s loses exactly its first x and nothing moves. */
  lemma {:induction false} RemoveFirstKeepsOrder(s: seq<Unit>, x: Unit)
    requires x in s
    ensures var i := IndexOf(s, x); RemoveFirst(s, x) == s[..i] + s[i + 1..]
  {
    if s[0] != x {
      RemoveFirstKeepsOrder(s[1..], x);
      assert s == [s[0]] + s[1..];
      SkipOccurrence([s[0]], s[1..], x);
    }
  }

  lemma {:induction false} RemoveFirstDistinct(s: seq<Unit>, x: Unit)
    requires Distinct(s)
    ensures Distinct(RemoveFirst(s, x)) && x !in RemoveFirst(s, x)
  {
    if s != [] && s[0] != x {
      RemoveFirstDistinct(s[1..], x);
      assert s[0] !in s[1..];
    }
  }

  /** A registered group: it is non-empty, led by one of its members, and its members point back at it. */
  ghost predicate GroupOk(g: Group)
    reads g, g.units
  {
    && |g.units| > 0
    && g.owner in g.units
    && Distinct(g.units)
    && forall i :: 0 <= i < |g.units| ==> g.units[i].group == g
  }

  /** `GameState.groups`. */
  class Parties {
    var groups: map<string, Group>

    constructor ()
      ensures groups == map[]
    {
      groups := map[];
    }

    ghost predicate Valid()
      reads this, groups.Values, set g: Group, i: int | g in groups.Values && 0 <= i < |g.units| :: g.units[i]
    {
      && (forall n :: n in groups ==> groups[n].name == n)
      && (forall g :: g in groups.Values ==> GroupOk(g))
    }

    /** A unit is either ungrouped or a member of the registered group it points at. */
    ghost predicate Belongs(u: Unit)
      reads this, u, u.group
    {
      u.group == null || (u.group.name in groups && groups[u.group.name] == u.group && u in u.group.units)
    }

    /** A unit is listed in at most one group. */
    lemma InOneGroup(u: Unit, n: string, m: string)
      requires Valid() && n in groups && m in groups
      requires u in groups[n].units && u in groups[m].units
      ensures n == m
    {
      assert groups[n] in groups.Values && groups[m] in groups.Values;
      assert GroupOk(groups[n]) && GroupOk(groups[m]);
      var i :| 0 <= i < |groups[n].units| && groups[n].units[i] == u;
      var j :| 0 <= j < |groups[m].units| && groups[m].units[j] == u;
    }

    /**
     * `Group.leave`: the unit is taken out of its group's list and ungrouped; an emptied group
     * is unregistered, and when the owner leaves a non-empty group its first member takes over.
     */
    method Leave(unit: Unit)
      requires Valid() && Belongs(unit)
      modifies this, unit, unit.group
      ensures Valid()
      ensures unit.group == null
      ensures old(unit.group) == null ==> groups == old(groups)
      ensures old(unit.group) != null ==>
        var g := old(unit.group);
        && g.units == RemoveFirst(old(g.units), unit)
        && unit !in g.units
        && g.name == old(g.name)
        && (g.units == [] ==> groups == old(groups) - {g.name})
        && (g.units != [] ==> groups == old(groups))
        && (g.units != [] ==> g.owner == if old(g.owner) == unit then g.units[0] else old(g.owner))
    {
      var g := unit.group;
      if g == null {
        return;
      }
      assert groups[g.name] in groups.Values;
      assert GroupOk(g);
      RemoveFirstDistinct(g.units, unit);
      g.units := RemoveFirst(g.units, unit);
      unit.group := null;
      if g.units == [] {
        groups := groups - {g.name};
      } else if g.owner == unit {
        g.owner := g.units[0];
      }
      forall h | h in groups.Values
        ensures GroupOk(h)
      {
        assert h in old(groups.Values);
        assert old(GroupOk(h));
        if h != g {
          forall i | 0 <= i < |h.units|
            ensures h.units[i].group == h
          {
            assert old(h.units[i].group) == h;
          }
        } else {
          forall i | 0 <= i < |h.units|
            ensures h.units[i].group == h
          {
            assert h.units[i] in old(g.units);
          }
        }
      }
    }
  
    /** An ungrouped unit is listed in no registered group. */
    lemma UngroupedInNoGroup(u: Unit)
      requires Valid() && u.group == null
      ensures forall h :: h in groups.Values ==> u !in h.units
    {
      forall h | h in groups.Values
        ensures u !in h.units
      {
        assert GroupOk(h);
      }
    }

    /**
     * `Group.join`: nothing happens when the unit is already in the group; otherwise the unit
     * leaves its old group and is appended to the new one, so it is listed in exactly one group.
     */
    method Join(unit: Unit, group: Group) returns (joined: bool)
      requires Valid() && Belongs(unit) && group in groups.Values
      modifies this, unit, unit.group, group
      ensures Valid()
      ensures joined <==> old(unit.group) != group
      ensures unit.group == group && unit in group.units
      ensures group.owner == old(group.owner) && group.name == old(group.name)
      ensures !joined ==> groups == old(groups) && group.units == old(group.units)
      ensures joined ==> group.units == old(group.units) + [unit]
      ensures old(unit.group) == null ==> groups == old(groups)
      ensures joined && old(unit.group) != null ==>
        var g := old(unit.group);
        && g.units == RemoveFirst(old(g.units), unit)
        && g.name == old(g.name)
        && (g.units == [] ==> groups == old(groups) - {g.name})
        && (g.units != [] ==> groups == old(groups))
    {
      if unit.group == group {
        assert groups[group.name] in groups.Values;
        return false;
      }
      var n :| n in groups && groups[n] == group;
      Leave(unit);
      assert n in groups && groups[n] == group;
      Enlist(unit, group);
      return true;
    }

    /** The second half of `join`: an ungrouped unit is appended to a registered group. */
    method Enlist(unit: Unit, group: Group)
      requires Valid() && unit.group == null && group in groups.Values
      modifies unit, group
      ensures Valid()
      ensures unit.group == group && group.units == old(group.units) + [unit]
      ensures group.owner == old(group.owner) && group.name == old(group.name)
    {
      UngroupedInNoGroup(unit);
      label Left:
      group.units := group.units + [unit];
      unit.group := group;
      forall h | h in groups.Values
        ensures GroupOk(h)
      {
        assert old@Left(GroupOk(h));
      }
    }

    /**
     * `Group(owner, name)`: a new group is registered under the new name with the owner as
     * its owner and only member; the owner's old group loses the owner as in `leave`.
     * The source registers the group before the owner leaves its old group; the old group
     * has another name, so doing the leave first gives the same state.
     */
    method NewGroup(owner: Unit, name: string) returns (g: Group)
      requires Valid() && Belongs(owner) && name !in groups
      modifies this, owner, owner.group
      ensures fresh(g) && Valid()
      ensures g.name == name && g.owner == owner && g.units == [owner] && owner.group == g
      ensures name in groups && groups[name] == g
      ensures forall n :: n in groups && n != name ==> n in old(groups) && groups[n] == old(groups)[n]
      ensures old(owner.group) == null ==> groups == old(groups)[name := g]
      ensures old(owner.group) != null ==>
        old(owner.group).units == RemoveFirst(old(owner.group.units), owner)
    {
      g := new Group(owner, name);
      Leave(owner);
      Found(owner, g);
    }

    /** The registration of `Group.__init__` followed by `join` of its ungrouped owner. */
    method Found(owner: Unit, g: Group)
      requires Valid() && owner.group == null && g.name !in groups && g.units == [] && g.owner == owner
      modifies this, owner, g
      ensures Valid()
      ensures groups == old(groups)[g.name := g]
      ensures g.units == [owner] && owner.group == g && g.owner == owner && g.name == old(g.name)
    {
      UngroupedInNoGroup(owner);
      label Left:
      groups := groups[g.name := g];
      g.units := [owner];
      owner.group := g;
      forall h | h in groups.Values
        ensures GroupOk(h)
      {
        if h != g {
          assert old@Left(GroupOk(h));
        }
      }
    }
  }
}
