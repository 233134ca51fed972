/**
 * The group actions (actions/group.py): `Create`, `Leave`, `Join` and `ResponseJoin`, acting
 * on the registry of groups `Parties`. Every one of them finishes in its one step except a
 * `Join` still waiting for its answer.
 *
 * The in-flight effects that `ResponseJoin` searches with `matching_effects` are given as the
 * sequence of the in-flight `Join` requests, in queue order: its `cond` rejects every other
 * kind of effect, so the first match is the same.
 */
module Party {

  import opened Util
  import opened Stats
  import opened Inventory
  import opened Skills
  import opened Units

  /** `Join.agreed`: "pending", "refused" or "agreed". */
  datatype Answer = Pending | Refused | Agreed

  /** A `Join` effect in flight: the unit asking and the name of the group it asks to join. */
  class JoinRequest {
    const emitter: Unit
    const name: string
    var agreed: Answer

    constructor (emitter: Unit, name: string)
      ensures this.emitter == emitter && this.name == name && agreed == Pending
    {
      this.emitter := emitter;
      this.name := name;
      agreed := Pending;
    }
  }

  /**
   * `Create.on_step`: a taken name changes nothing; otherwise the emitter leaves its group and
   * a new group under the name has the emitter as owner and only member.
   */
  method CreateStep(p: Parties, emitter: Unit, name: string) returns (pending: bool, created: Option<Group>)
    requires p.Valid() && p.Belongs(emitter)
    modifies p, emitter, emitter.group
    ensures !pending && p.Valid() && p.Belongs(emitter)
    ensures name in old(p.groups) ==>
      && created.None?
      && p.groups == old(p.groups)
      && emitter.group == old(emitter.group)
      && (emitter.group != null ==> emitter.group.units == old(emitter.group.units))
    ensures name !in old(p.groups) ==>
      && created.Some? && fresh(created.value)
      && name in p.groups && p.groups[name] == created.value
      && created.value.owner == emitter && created.value.units == [emitter]
      && emitter.group == created.value
      && (forall n :: n in p.groups && n != name ==> n in old(p.groups) && p.groups[n] == old(p.groups)[n])
      && (old(emitter.group) != null ==>
            old(emitter.group).units == RemoveFirst(old(emitter.group.units), emitter))
  {
    if name in p.groups {
      return false, None;
    }
    var g := p.NewGroup(emitter, name);
    return false, Some(g);
  }

  /** `Leave.on_step`: the emitter leaves its group, if it has one. */
  method LeaveStep(p: Parties, emitter: Unit) returns (pending: bool)
    requires p.Valid() && p.Belongs(emitter)
    modifies p, emitter, emitter.group
    ensures !pending && p.Valid() && p.Belongs(emitter)
    ensures emitter.group == null
    ensures old(emitter.group) == null ==> p.groups == old(p.groups)
    ensures old(emitter.group) != null ==>
      var g := old(emitter.group);
      && g.units == RemoveFirst(old(g.units), emitter)
      && (g.units == [] <==> g.name !in p.groups)
      && (g.units == [] ==> p.groups == old(p.groups) - {g.name})
      && (g.units != [] ==> p.groups == old(p.groups))
      && (g.units != [] ==> g.owner == if old(g.owner) == emitter then g.units[0] else old(g.owner))
  {
    p.Leave(emitter);
    pending := false;
  }

  /**
   * `Join.on_step` as written: once agreed, the emitter first leaves its group and only then
   * is the group looked up by name. When the emitter was that group's only member, the leave
   * has just unregistered it and the lookup raises `KeyError` out of the scheduler's step;
   * `raised` reports that.
   */
  method JoinStepAsWritten(p: Parties, j: JoinRequest) returns (pending: bool, raised: bool)
    requires p.Valid() && p.Belongs(j.emitter)
    modifies p, j.emitter, j.emitter.group, p.groups.Values
    ensures p.Valid() && p.Belongs(j.emitter)
    ensures pending <==> j.name in old(p.groups) && j.agreed == Pending
    ensures !(j.name in old(p.groups) && j.agreed == Agreed) ==>
      !raised && p.groups == old(p.groups) && j.emitter.group == old(j.emitter.group)
    ensures j.name in old(p.groups) && j.agreed == Agreed ==>
      var g := old(p.groups[j.name]);
      && (raised <==> old(j.emitter.group) == g && |old(g.units)| == 1)
      && (raised ==> j.emitter.group == null && j.name !in p.groups)
      && (!raised ==> j.name in p.groups && p.groups[j.name] == g && j.emitter.group == g)
  {
    if j.name !in p.groups {
      return false, false;
    }
    if j.agreed == Pending {
      return true, false;
    }
    if j.agreed == Refused {
      return false, false;
    }
    ghost var g := p.groups[j.name];
    assert g in p.groups.Values;
    assert GroupOk(g);
    if j.emitter.group != null {
      assert p.groups[j.emitter.group.name] in p.groups.Values;
      assert GroupOk(j.emitter.group);
    }
    p.Leave(j.emitter);
    if j.name !in p.groups {
      return false, true;
    }
    assert p.groups[j.name] == g;
    var _ := p.Join(j.emitter, p.groups[j.name]);
    return false, false;
  }

  /**
   * `Join.on_step` with the group looked up before anything changes, as `Group.join` already
   * makes the unit leave its old group: once agreed, the emitter ends up a member of the
   * named group, which stays registered, and a member asking to rejoin its own group changes
   * nothing.
   */
  method JoinStep(p: Parties, j: JoinRequest) returns (pending: bool)
    requires p.Valid() && p.Belongs(j.emitter)
    modifies p, j.emitter, j.emitter.group, p.groups.Values
    ensures p.Valid() && p.Belongs(j.emitter)
    ensures pending <==> j.name in old(p.groups) && j.agreed == Pending
    ensures !(j.name in old(p.groups) && j.agreed == Agreed) ==>
      p.groups == old(p.groups) && j.emitter.group == old(j.emitter.group)
    ensures j.name in old(p.groups) && j.agreed == Agreed ==>
      var g := old(p.groups[j.name]);
      && j.name in p.groups && p.groups[j.name] == g
      && j.emitter.group == g && j.emitter in g.units
      && g.owner == old(g.owner)
      && (old(j.emitter.group) == g ==> g.units == old(g.units) && p.groups == old(p.groups))
      && (old(j.emitter.group) != g ==> g.units == old(g.units) + [j.emitter])
  {
    if j.name !in p.groups {
      return false;
    }
    if j.agreed == Pending {
      return true;
    }
    if j.agreed == Refused {
      return false;
    }
    var g := p.groups[j.name];
    assert g in p.groups.Values && g.name == j.name;
    if j.emitter.group != null {
      assert p.groups[j.emitter.group.name] in p.groups.Values;
      assert j.emitter.group != g ==> j.emitter.group.name != j.name;
    }
    var _ := p.Join(j.emitter, g);
    assert j.name in p.groups && p.groups[j.name] == g;
    return false;
  }

  /** The `cond` of `ResponseJoin`: a join request for this group from the unit of this name. */
  function RequestFrom(name: string, requester: string): JoinRequest -> bool
  {
    (j: JoinRequest) => j.name == name && j.emitter.uname == requester
  }

  /**
   * The request a `ResponseJoin` answers: none when the group is missing or the responder is
   * not its owner, else the first in-flight request for the group from the requester.
   */
  function Addressed(p: Parties, responder: Unit, name: string, requester: string, joins: seq<JoinRequest>): (r: Option<nat>)
    reads p, p.groups.Values
    ensures r.Some? ==>
      && name in p.groups && p.groups[name].owner == responder
      && r.value < |joins| && joins[r.value].name == name && joins[r.value].emitter.uname == requester
      && forall k :: 0 <= k < r.value ==> !(joins[k].name == name && joins[k].emitter.uname == requester)
    ensures r.None? <==>
      || name !in p.groups
      || p.groups[name].owner != responder
      || forall k :: 0 <= k < |joins| ==> !(joins[k].name == name && joins[k].emitter.uname == requester)
  {
    if name !in p.groups || p.groups[name].owner != responder then None
    else FirstWhere(joins, RequestFrom(name, requester))
  }

  function Requests(joins: seq<JoinRequest>): set<JoinRequest>
  {
    set j | j in joins
  }

  /**
   * `ResponseJoin.on_step`: the addressed request, if any, is agreed or refused; no other
   * request changes.
   */
  method ResponseJoinStep(p: Parties, responder: Unit, name: string, requester: string, agreed: bool,
                          joins: seq<JoinRequest>)
    returns (pending: bool)
    modifies Requests(joins)`agreed
    ensures !pending
    ensures match Addressed(p, responder, name, requester, joins)
      case None => forall j :: j in joins ==> j.agreed == old(j.agreed)
      case Some(i) =>
        && joins[i].agreed == (if agreed then Agreed else Refused)
        && forall j :: j in joins && j != joins[i] ==> j.agreed == old(j.agreed)
  {
    if name !in p.groups {
      return false;
    }
    var group := p.groups[name];
    if responder != group.owner {
      return false;
    }
    var r := FindFirst(joins, RequestFrom(name, requester));
    if r.Some? {
      joins[r.value].agreed := if agreed then Agreed else Refused;
    }
    return false;
  }

  /** The owner and only member of group "a", with its request to join "a" already agreed. */
  method SoleMember() returns (p: Parties, g: Group, j: JoinRequest)
    ensures fresh(p) && fresh(g) && fresh(j) && fresh(j.emitter)
    ensures p.Valid() && p.Belongs(j.emitter)
    ensures p.groups == map["a" := g] && g.units == [j.emitter] && g.owner == j.emitter && j.emitter.group == g
    ensures j.emitter.uname == "u"
    ensures j.name == "a" && j.agreed == Agreed
  {
    var board := new Board();
    var bag := new Bag(board);
    var caster := new Caster();
    var u := new Unit("u", board, bag, caster, null, false);
    p := new Parties();
    g := p.NewGroup(u, "a");
    j := new JoinRequest(u, "a");
    j.agreed := Agreed;
  }

  /**
   * The failing input of `JoinStepAsWritten`: the only member of group "a" is let into "a".
   * The step as written raises.
   */
  method RejoinAloneAsWritten() returns (raised: bool)
    ensures raised
  {
    var p, g, j := SoleMember();
    var _, r := JoinStepAsWritten(p, j);
    raised := r;
  }

  /** The same input to the corrected step: the group is left as it was. */
  method RejoinAlone() returns (kept: bool)
    ensures kept
  {
    var p, g, j := SoleMember();
    var _ := JoinStep(p, j);
    kept := "a" in p.groups && p.groups["a"] == g && g.units == [j.emitter] && j.emitter.group == g;
  }

  /**
   * The owner of group "a" answers yes to the first request for "a" from the unit named "u".
   */
  method OwnerAgrees() returns (answered: bool)
    ensures answered
  {
    var p, g, j := SoleMember();
    j.agreed := Pending;
    assert RequestFrom("a", "u")(j);
    FirstWhereIs([j], RequestFrom("a", "u"), 0);
    var _ := ResponseJoinStep(p, j.emitter, "a", "u", true, [j]);
    answered := j.agreed == Agreed;
  }
}
