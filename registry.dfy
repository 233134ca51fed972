/**
 * The component registry and the entity slot array (core.py:158-266).
 *
 * Python classes are modelled as type ids. A `Hierarchy` gives each known class its
 * method resolution order (`__mro__`, the class itself first) and names the root
 * `Component` class; `issubclass(a, b)` is membership of b in a's MRO.
 */
module Registry {

  type TypeId = nat

  datatype Hierarchy = Hierarchy(mro: map<TypeId, seq<TypeId>>, root: TypeId) {

    /** `issubclass(a, b)`. */
    predicate IsSubtype(a: TypeId, b: TypeId)
    {
      a in mro && b in mro[a]
    }

    /** The classes `_aware_component` assigns slots to: proper subclasses of `Component`. */
    predicate IsComponent(t: TypeId)
    {
      t != root && IsSubtype(t, root)
    }

    /** Transitivity of `issubclass` at one triple of classes. */
    ghost predicate TransitiveAt(a: TypeId, b: TypeId, c: TypeId)
    {
      IsSubtype(a, b) && IsSubtype(b, c) ==> IsSubtype(a, c)
    }

    /** Every MRO starts with its own class, and subclassing is transitive. */
    ghost predicate WellFormed()
    {
      && (forall t <- mro :: |mro[t]| > 0 && mro[t][0] == t)
      && (forall a, b, c :: TransitiveAt(a, b, c))
    }
  }

  lemma SubtypeReflexive(h: Hierarchy, t: TypeId)
    requires h.WellFormed() && t in h.mro
    ensures h.IsSubtype(t, t)
  {
    assert h.mro[t][0] == t;
  }

  ghost predicate Distinct(s: seq<TypeId>)
  {
    forall i, j :: 0 <= i < j < |s| ==> s[i] != s[j]
  }

  // ---------------------------------------------------------------------------
  // Discovery order: the order in which `_aware_component` hands out slots
  // (the insertion order of the `exact_indices` dict).
  // ---------------------------------------------------------------------------

  /** One step of the MRO walk: a component class not seen before gets the next slot. */
  function Visit(h: Hierarchy, order: seq<TypeId>, t: TypeId): seq<TypeId>
  {
    if h.IsComponent(t) && t !in order then order + [t] else order
  }

  /** The walk over one MRO, left to right. */
  function Walk(h: Hierarchy, chain: seq<TypeId>, order: seq<TypeId>): seq<TypeId>
    decreases |chain|
  {
    if chain == [] then order
    else Visit(h, Walk(h, chain[..|chain| - 1], order), chain[|chain| - 1])
  }

  function MroOf(h: Hierarchy, t: TypeId): seq<TypeId>
  {
    if t in h.mro then h.mro[t] else []
  }

  /** The slot order produced by `Metadata(*types)`. */
  function Discover(h: Hierarchy, types: seq<TypeId>): seq<TypeId>
    decreases |types|
  {
    if types == [] then []
    else Walk(h, MroOf(h, types[|types| - 1]), Discover(h, types[..|types| - 1]))
  }

  lemma {:induction false} WalkFacts(h: Hierarchy, chain: seq<TypeId>, order: seq<TypeId>)
    requires Distinct(order)
    ensures Distinct(Walk(h, chain, order))
    ensures order <= Walk(h, chain, order)
    ensures forall t :: t in Walk(h, chain, order) <==> t in order || (t in chain && h.IsComponent(t))
    decreases |chain|
  {
    if chain != [] {
      var front := chain[..|chain| - 1];
      WalkFacts(h, front, order);
      forall t ensures t in chain <==> t in front || t == chain[|chain| - 1] {
        assert chain == front + [chain[|chain| - 1]];
      }
    }
  }

  /**
   * Slots are dense and unique: the discovery order has no repetitions, and a class
   * appears in it exactly when it is a component class in the MRO of a declared type.
   */
  lemma {:induction false} DiscoverFacts(h: Hierarchy, types: seq<TypeId>)
    ensures Distinct(Discover(h, types))
    ensures forall t :: t in Discover(h, types) <==>
      h.IsComponent(t) && exists i :: 0 <= i < |types| && t in MroOf(h, types[i])
    decreases |types|
  {
    if types != [] {
      var front := types[..|types| - 1];
      var last := types[|types| - 1];
      DiscoverFacts(h, front);
      WalkFacts(h, MroOf(h, last), Discover(h, front));
      forall t
        ensures t in Discover(h, types) <==>
          h.IsComponent(t) && exists i :: 0 <= i < |types| && t in MroOf(h, types[i])
      {
        if h.IsComponent(t) && t in MroOf(h, last) {
          assert types[|types| - 1] == last;
        }
        if exists i :: 0 <= i < |types| && t in MroOf(h, types[i]) {
          var i :| 0 <= i < |types| && t in MroOf(h, types[i]);
          if i < |types| - 1 {
            assert front[i] == types[i];
          }
        }
        if exists i :: 0 <= i < |front| && t in MroOf(h, front[i]) {
          var i :| 0 <= i < |front| && t in MroOf(h, front[i]);
          assert types[i] == front[i];
        }
      }
    }
  }

  lemma {:induction false} WalkKnown(h: Hierarchy, chain: seq<TypeId>, order: seq<TypeId>)
    requires forall t :: t in chain && h.IsComponent(t) ==> t in order
    ensures Walk(h, chain, order) == order
    decreases |chain|
  {
    if chain != [] {
      var front := chain[..|chain| - 1];
      assert forall t :: t in front ==> t in chain;
      WalkKnown(h, front, order);
    }
  }

  /** Declaring a class a second time changes nothing: repeated declarations are ignored. */
  lemma RepeatedDeclarationIgnored(h: Hierarchy, types: seq<TypeId>, t: TypeId)
    requires t in types
    ensures Discover(h, types + [t]) == Discover(h, types)
  {
    var all := types + [t];
    assert all[..|all| - 1] == types;
    DiscoverFacts(h, types);
    var i :| 0 <= i < |types| && types[i] == t;
    forall u | u in MroOf(h, t) && h.IsComponent(u) ensures u in Discover(h, types) {
      assert u in MroOf(h, types[i]);
    }
    WalkKnown(h, MroOf(h, t), Discover(h, types));
  }

  /** The set of registered classes does not depend on the order of the declarations. */
  lemma RegisteredSetOrderIndependent(h: Hierarchy, types: seq<TypeId>, other: seq<TypeId>)
    requires multiset(types) == multiset(other)
    ensures forall t :: t in Discover(h, types) <==> t in Discover(h, other)
  {
    DiscoverFacts(h, types);
    DiscoverFacts(h, other);
    forall t | t in Discover(h, types) ensures t in Discover(h, other) {
      var i :| 0 <= i < |types| && t in MroOf(h, types[i]);
      assert types[i] in multiset(other);
      var j :| 0 <= j < |other| && other[j] == types[i];
    }
    forall t | t in Discover(h, other) ensures t in Discover(h, types) {
      var i :| 0 <= i < |other| && t in MroOf(h, other[i]);
      assert other[i] in multiset(types);
      var j :| 0 <= j < |types| && types[j] == other[i];
    }
  }

  // ---------------------------------------------------------------------------
  // Metadata
  // ---------------------------------------------------------------------------

  /** The slots of every registered subclass of a (a included). */
  function Sub(h: Hierarchy, order: seq<TypeId>, a: TypeId): set<nat>
  {
    set s: nat | s < |order| && h.IsSubtype(order[s], a)
  }

  /**
   * What `Metadata` holds once built: `exact` numbers the classes of `order` densely from 0,
   * and `indices[a]` is exactly the set of slots of a's registered subclasses.
   */
  ghost predicate Inv(h: Hierarchy, order: seq<TypeId>, exact: map<TypeId, nat>, indices: map<TypeId, set<nat>>)
  {
    SlotsInv(h, order, exact) && exact.Keys == indices.Keys && IndexInv(h, order, indices)
  }

  /** `exact` numbers the component classes of `order` densely from 0, in order. */
  ghost predicate SlotsInv(h: Hierarchy, order: seq<TypeId>, exact: map<TypeId, nat>)
  {
    && Distinct(order)
    && |order| == |exact|
    && (forall s :: 0 <= s < |order| ==> order[s] in exact && exact[order[s]] == s)
    && (forall t <- exact :: t in order)
    && (forall s :: 0 <= s < |order| ==> h.IsComponent(order[s]))
  }

  /** Each index set holds exactly the slots of the registered subclasses. */
  ghost predicate IndexInv(h: Hierarchy, order: seq<TypeId>, indices: map<TypeId, set<nat>>)
  {
    forall a <- indices :: indices[a] == Sub(h, order, a)
  }

  /** Numbering a new component class keeps the slot numbering dense. */
  lemma SlotsExtend(h: Hierarchy, order: seq<TypeId>, exact: map<TypeId, nat>, each: TypeId)
    requires SlotsInv(h, order, exact) && h.IsComponent(each) && each !in exact
    ensures SlotsInv(h, order + [each], exact[each := |exact|])
  {
    var o, e := order + [each], exact[each := |exact|];
    assert each !in order;
    forall s | 0 <= s < |o| ensures o[s] in e && e[o[s]] == s {
      if s < |order| { assert o[s] == order[s]; }
    }
  }

  /**
   * The result of `Metadata(*types)`. `order` is the key order of the `exact_indices` dict;
   * the source turns each index set into an array, taken here in ascending slot order.
   */
  datatype Metadata = Metadata(h: Hierarchy, order: seq<TypeId>, exact: map<TypeId, nat>, indices: map<TypeId, set<nat>>)
  {
    ghost predicate Valid()
    {
      h.WellFormed() && Inv(h, order, exact, indices)
    }
  }

  lemma SubExtend(h: Hierarchy, order: seq<TypeId>, x: TypeId, k: TypeId)
    ensures Sub(h, order + [x], k) == Sub(h, order, k) + (if h.IsSubtype(x, k) then {|order|} else {})
  {
    var o := order + [x];
    forall s: nat | s < |order| ensures o[s] == order[s] { }
  }

  /** Slots of subclasses of k are slots of subclasses of every superclass of k. */
  lemma SubMonotonic(h: Hierarchy, order: seq<TypeId>, k: TypeId, a: TypeId)
    requires h.WellFormed() && h.IsSubtype(k, a)
    ensures Sub(h, order, k) <= Sub(h, order, a)
  {
    forall s | s in Sub(h, order, k) ensures s in Sub(h, order, a) {
      assert h.TransitiveAt(order[s], k, a);
    }
  }

  /** `after` is `before` with `index` added to the set of every proper superclass of `each`. */
  ghost predicate SuperclassesGotSlot(h: Hierarchy, each: TypeId, index: nat, before: map<TypeId, set<nat>>, after: map<TypeId, set<nat>>)
  {
    && after.Keys == before.Keys
    && forall k <- after ::
         after[k] == if k != each && h.IsSubtype(each, k) then before[k] + {index} else before[k]
  }

  /**
   * `after` is `before` except that the set of `each` has absorbed the sets of all its proper
   * subclasses, and holds nothing else.
   */
  ghost predicate SubclassesGathered(h: Hierarchy, each: TypeId, before: map<TypeId, set<nat>>, after: map<TypeId, set<nat>>)
  {
    && each in before
    && after.Keys == before.Keys
    && (forall k <- after :: k != each ==> after[k] == before[k])
    && before[each] <= after[each]
    && (forall k <- before :: k != each && h.IsSubtype(k, each) ==> before[k] <= after[each])
    && (forall s <- after[each] :: (s in before[each] ||
          exists k <- before :: k != each && h.IsSubtype(k, each) && s in before[k]))
  }

  /**
   * The first inner loop of `_aware_component`: every registered proper superclass k of the
   * new class `each` receives the new slot; nothing else changes.
   */
  method AddSlotToSuperclasses(h: Hierarchy, each: TypeId, index: nat, indices0: map<TypeId, set<nat>>)
    returns (indices: map<TypeId, set<nat>>)
    ensures SuperclassesGotSlot(h, each, index, indices0, indices)
  {
    indices := indices0;
    var todo := indices.Keys;
    while todo != {}
      invariant todo <= indices.Keys && indices.Keys == indices0.Keys
      invariant forall k <- indices ::
        indices[k] == if k !in todo && k != each && h.IsSubtype(each, k) then indices0[k] + {index} else indices0[k]
      decreases |todo|
    {
      var k :| k in todo;
      if k != each && h.IsSubtype(each, k) {
        indices := indices[k := indices[k] + {index}];
      }
      todo := todo - {k};
    }
  }

  /**
   * The second inner loop: the new class's set absorbs the set of every registered proper
   * subclass k, and becomes exactly its old contents together with theirs.
   */
  method GatherSubclassSlots(h: Hierarchy, each: TypeId, indices0: map<TypeId, set<nat>>)
    returns (indices: map<TypeId, set<nat>>)
    requires each in indices0
    ensures SubclassesGathered(h, each, indices0, indices)
  {
    indices := indices0;
    var todo := indices.Keys;
    while todo != {}
      invariant todo <= indices.Keys && indices.Keys == indices0.Keys
      invariant forall k <- indices :: k != each ==> indices[k] == indices0[k]
      invariant indices0[each] <= indices[each]
      invariant forall k <- indices0 :: k !in todo && k != each && h.IsSubtype(k, each) ==> indices0[k] <= indices[each]
      invariant forall s <- indices[each] :: (s in indices0[each] ||
        exists k <- indices0 :: k != each && h.IsSubtype(k, each) && s in indices0[k])
      decreases |todo|
    {
      var k :| k in todo;
      if k != each && h.IsSubtype(k, each) {
        indices := indices[each := indices[each] + indices[k]];
      }
      todo := todo - {k};
    }
  }

  /** After the first loop every class other than the new one has its final index set. */
  lemma OthersFinal(h: Hierarchy, order0: seq<TypeId>, each: TypeId, before: map<TypeId, set<nat>>, after: map<TypeId, set<nat>>)
    requires forall k <- before :: k != each ==> before[k] == Sub(h, order0, k)
    requires SuperclassesGotSlot(h, each, |order0|, before, after)
    ensures forall k <- after :: k != each ==> after[k] == Sub(h, order0 + [each], k)
  {
    forall k | k in after && k != each ensures after[k] == Sub(h, order0 + [each], k) {
      SubExtend(h, order0, each, k);
    }
  }

  /** After the second loop the new class's set holds exactly its subclasses' slots. */
  lemma NewFinal(h: Hierarchy, order: seq<TypeId>, each: TypeId, mid: map<TypeId, set<nat>>, last: map<TypeId, set<nat>>)
    requires h.WellFormed() && Distinct(order) && |order| > 0 && order[|order| - 1] == each
    requires forall s :: 0 <= s < |order| ==> order[s] in mid && h.IsComponent(order[s])
    requires forall k <- mid :: k != each ==> mid[k] == Sub(h, order, k)
    requires each in mid && mid[each] == {|order| - 1}
    requires SubclassesGathered(h, each, mid, last)
    ensures last[each] == Sub(h, order, each)
  {
    SubtypeReflexive(h, each);
    forall s | s in last[each] ensures s in Sub(h, order, each) {
      if s !in mid[each] {
        var k :| k in mid && k != each && h.IsSubtype(k, each) && s in mid[k];
        SubMonotonic(h, order, k, each);
      }
    }
    forall s | s in Sub(h, order, each) ensures s in last[each] {
      var b := order[s];
      if b != each {
        SubtypeReflexive(h, b);
        assert s in Sub(h, order, b);
      }
    }
  }

  /** The body of `_aware_component` for a component class `each` that has no slot yet. */
  method RegisterNew(h: Hierarchy, each: TypeId, exact0: map<TypeId, nat>, indices0: map<TypeId, set<nat>>, order0: seq<TypeId>)
    returns (exact: map<TypeId, nat>, indices: map<TypeId, set<nat>>, order: seq<TypeId>)
    requires h.WellFormed() && h.IsComponent(each) && each !in exact0
    requires Inv(h, order0, exact0, indices0)
    ensures Inv(h, order, exact, indices)
    ensures order == order0 + [each]
  {
    var index := |exact0|;
    exact := exact0[each := index];
    order := order0 + [each];
    indices := indices0;
    if each !in indices {
      indices := indices[each := {index}];
    }
    var mid := AddSlotToSuperclasses(h, each, index, indices);
    indices := GatherSubclassSlots(h, each, mid);
    RegisterNewInv(h, each, exact0, indices0, order0, mid, indices);
  }

  /** The state after registering `each` satisfies `Inv` again. */
  lemma RegisterNewInv(h: Hierarchy, each: TypeId, exact0: map<TypeId, nat>, indices0: map<TypeId, set<nat>>, order0: seq<TypeId>,
                       mid: map<TypeId, set<nat>>, last: map<TypeId, set<nat>>)
    requires h.WellFormed() && h.IsComponent(each) && each !in exact0
    requires Inv(h, order0, exact0, indices0)
    requires SuperclassesGotSlot(h, each, |order0|, indices0[each := {|order0|}], mid)
    requires SubclassesGathered(h, each, mid, last)
    ensures Inv(h, order0 + [each], exact0[each := |exact0|], last)
  {
    var order, exact := order0 + [each], exact0[each := |exact0|];
    SlotsExtend(h, order0, exact0, each);
    AfterFirstLoop(h, each, exact0, indices0, order0, mid);
    NewIndexInv(h, order, exact, each, mid, last);
  }

  /** The first loop of the body gives every superclass the new slot. */
  lemma AfterFirstLoop(h: Hierarchy, each: TypeId, exact0: map<TypeId, nat>, indices0: map<TypeId, set<nat>>,
                       order0: seq<TypeId>, mid: map<TypeId, set<nat>>)
    requires Inv(h, order0, exact0, indices0) && each !in exact0
    requires SuperclassesGotSlot(h, each, |order0|, indices0[each := {|order0|}], mid)
    ensures exact0[each := |exact0|].Keys == mid.Keys
    ensures forall k <- mid :: k != each ==> mid[k] == Sub(h, order0 + [each], k)
    ensures each in mid && mid[each] == {|order0|}
  {
    OthersBeforeRegister(h, each, exact0, indices0, order0);
    OthersFinal(h, order0, each, indices0[each := {|order0|}], mid);
  }

  /** The second loop of the body completes the index sets. */
  lemma NewIndexInv(h: Hierarchy, order: seq<TypeId>, exact: map<TypeId, nat>, each: TypeId,
                    mid: map<TypeId, set<nat>>, last: map<TypeId, set<nat>>)
    requires h.WellFormed() && SlotsInv(h, order, exact) && exact.Keys == mid.Keys
    requires |order| > 0 && order[|order| - 1] == each
    requires forall k <- mid :: k != each ==> mid[k] == Sub(h, order, k)
    requires each in mid && mid[each] == {|order| - 1}
    requires SubclassesGathered(h, each, mid, last)
    ensures IndexInv(h, order, last)
  {
    SlotsCovered(h, order, exact, mid);
    NewFinal(h, order, each, mid, last);
    IndexInvAssembled(h, order, each, mid, last);
  }

  lemma OthersBeforeRegister(h: Hierarchy, each: TypeId, exact0: map<TypeId, nat>, indices0: map<TypeId, set<nat>>, order0: seq<TypeId>)
    requires Inv(h, order0, exact0, indices0) && each !in exact0
    ensures forall k <- indices0[each := {|order0|}] :: k != each ==> indices0[each := {|order0|}][k] == Sub(h, order0, k)
  {
  }

  lemma SlotsCovered(h: Hierarchy, order: seq<TypeId>, exact: map<TypeId, nat>, m: map<TypeId, set<nat>>)
    requires SlotsInv(h, order, exact) && exact.Keys == m.Keys
    ensures forall s :: 0 <= s < |order| ==> order[s] in m && h.IsComponent(order[s])
  {
  }

  lemma IndexInvAssembled(h: Hierarchy, order: seq<TypeId>, each: TypeId, mid: map<TypeId, set<nat>>, last: map<TypeId, set<nat>>)
    requires forall k <- mid :: k != each ==> mid[k] == Sub(h, order, k)
    requires SubclassesGathered(h, each, mid, last)
    requires last[each] == Sub(h, order, each)
    ensures IndexInv(h, order, last)
  {
  }

  /**
   * `Metadata._aware_component`: walks t's MRO, skipping `Component` itself, non-components
   * and classes that already have a slot, and registers every other class.
   */
  method AwareComponent(h: Hierarchy, t: TypeId, exact0: map<TypeId, nat>, indices0: map<TypeId, set<nat>>, order0: seq<TypeId>)
    returns (exact: map<TypeId, nat>, indices: map<TypeId, set<nat>>, order: seq<TypeId>)
    requires h.WellFormed() && t in h.mro
    requires Inv(h, order0, exact0, indices0)
    ensures Inv(h, order, exact, indices)
    ensures order == Walk(h, h.mro[t], order0)
  {
    exact, indices, order := exact0, indices0, order0;
    var chain := h.mro[t];
    for m := 0 to |chain|
      invariant Inv(h, order, exact, indices)
      invariant order == Walk(h, chain[..m], order0)
    {
      var each := chain[m];
      assert chain[..m + 1][..m] == chain[..m];
      if each == h.root {
        continue;
      }
      if !h.IsSubtype(each, h.root) {
        continue;
      }
      if each in exact {
        continue;
      }
      exact, indices, order := RegisterNew(h, each, exact, indices, order);
    }
    assert chain[..|chain|] == chain;
  }

  /** `Metadata(*types)`: registers every declared class in turn. */
  method Build(h: Hierarchy, types: seq<TypeId>) returns (m: Metadata)
    requires h.WellFormed()
    requires forall t <- types :: t in h.mro
    ensures m.Valid() && m.h == h
    ensures m.order == Discover(h, types)
  {
    var exact: map<TypeId, nat> := map[];
    var indices: map<TypeId, set<nat>> := map[];
    var order: seq<TypeId> := [];
    for n := 0 to |types|
      invariant Inv(h, order, exact, indices)
      invariant order == Discover(h, types[..n])
    {
      assert types[..n + 1][..n] == types[..n];
      exact, indices, order := AwareComponent(h, types[n], exact, indices, order);
    }
    assert types[..|types|] == types;
    m := Metadata(h, order, exact, indices);
  }

  /**
   * For registered classes B <= A: A's index set holds B's slot and all of B's index set,
   * whatever the order of the declarations.
   */
  lemma IndicesSubtypeClosed(m: Metadata, a: TypeId, b: TypeId)
    requires m.Valid() && a in m.exact && b in m.exact && m.h.IsSubtype(b, a)
    ensures m.exact[b] in m.indices[a]
    ensures m.indices[b] <= m.indices[a]
  {
    var s :| 0 <= s < |m.order| && m.order[s] == b;
    assert m.exact[b] == s;
    SubMonotonic(m.h, m.order, b, a);
  }

  /** Every slot number in an index set is a valid slot. */
  lemma IndicesInRange(m: Metadata, a: TypeId, s: nat)
    requires m.Valid() && a in m.indices && s in m.indices[a]
    ensures s < |m.exact| && m.h.IsSubtype(m.order[s], a)
  {
  }

  /** The classes of test_resolution.py: `Component` is 0, A is 1, C is 2, B(A, C) is 3, `object` is 9. */
  function ResolutionHierarchy(): Hierarchy
  {
    Hierarchy(map[0 := [0, 9], 1 := [1, 0, 9], 2 := [2, 0, 9], 3 := [3, 1, 2, 0, 9]], 0)
  }

  lemma ResolutionFirstDeclaration()
    ensures Discover(ResolutionHierarchy(), [2]) == [2]
  {
    var h := ResolutionHierarchy();
    assert [2, 0, 9][..2] == [2, 0] && [2, 0][..1] == [2] && [2][..0] == [];
    assert Walk(h, [2], []) == [2];
    assert Walk(h, [2, 0], []) == [2];
  }

  lemma ResolutionSecondDeclaration()
    ensures Discover(ResolutionHierarchy(), [2, 1]) == [2, 1]
  {
    var h := ResolutionHierarchy();
    ResolutionFirstDeclaration();
    assert [2, 1][..1] == [2];
    assert [1, 0, 9][..2] == [1, 0] && [1, 0][..1] == [1] && [1][..0] == [];
    assert Walk(h, [1], [2]) == [2, 1];
    assert Walk(h, [1, 0], [2]) == [2, 1];
  }

  /** B's own class and its bases A and C come after C = 0 and A = 1: only B gets a new slot. */
  lemma ResolutionThirdWalk()
    ensures Walk(ResolutionHierarchy(), [3, 1, 2], [2, 1]) == [2, 1, 3]
  {
    var h := ResolutionHierarchy();
    assert [3, 1, 2][..2] == [3, 1] && [3, 1][..1] == [3] && [3][..0] == [];
    assert Walk(h, [3], [2, 1]) == [2, 1, 3];
    assert Walk(h, [3, 1], [2, 1]) == [2, 1, 3];
  }

  /** The declarations (C, A, B) hand out the slots C = 0, A = 1, B = 2. */
  lemma ResolutionOrder()
    ensures Discover(ResolutionHierarchy(), [2, 1, 3]) == [2, 1, 3]
  {
    var h := ResolutionHierarchy();
    ResolutionSecondDeclaration();
    ResolutionThirdWalk();
    assert [2, 1, 3][..2] == [2, 1];
    assert [3, 1, 2, 0, 9][..4] == [3, 1, 2, 0] && [3, 1, 2, 0][..3] == [3, 1, 2];
    assert Walk(h, [3, 1, 2, 0], [2, 1]) == [2, 1, 3];
  }

  /**
   * The example of test_resolution.py: with B(A, C) declared as (C, A, B), A's index set is
   * {1, 2}, B's is {2} and C's is {0, 2}.
   */
  lemma ResolutionExample()
    ensures var h := ResolutionHierarchy();
            var order := Discover(h, [2, 1, 3]);
            order == [2, 1, 3] &&
            Sub(h, order, 1) == {1, 2} && Sub(h, order, 3) == {2} && Sub(h, order, 2) == {0, 2}
  {
    var h := ResolutionHierarchy();
    ResolutionOrder();
    var order := [2, 1, 3];
    assert Sub(h, order, 1) == {1, 2} by {
      forall s: nat | s < 3 ensures s in Sub(h, order, 1) <==> s == 1 || s == 2 { }
    }
    assert Sub(h, order, 3) == {2} by {
      forall s: nat | s < 3 ensures s in Sub(h, order, 3) <==> s == 2 { }
    }
    assert Sub(h, order, 2) == {0, 2} by {
      forall s: nat | s < 3 ensures s in Sub(h, order, 2) <==> s == 0 || s == 2 { }
    }
  }

  // ---------------------------------------------------------------------------
  // Entity
  // ---------------------------------------------------------------------------

  datatype FetchResult = Found(c: Component) | NoComponentError(t: TypeId)

  /** A component instance; `ty` is its exact class. */
  class Component {
    const ty: TypeId
    var entity: Entity?

    constructor (ty: TypeId)
      ensures this.ty == ty && entity == null
    {
      this.ty := ty;
      entity := null;
    }

    /** `Component.ready`: binds the component to e and stores it in its exact slot. */
    method Ready(e: Entity)
      requires e.Valid()
      modifies this, e.components
      ensures e.Valid() && entity == e
      ensures ty in e.meta.exact ==> e.components[..] == old(e.components[..])[e.meta.exact[ty] := this]
      ensures ty !in e.meta.exact ==> e.components[..] == old(e.components[..])
    {
      entity := e;
      var _ := e.SetComponent(this);
    }
  }

  class Entity {
    const meta: Metadata
    const components: array<Component?>

    /** Each populated slot holds an instance whose exact class owns that slot. */
    ghost predicate Valid()
      reads this, components
    {
      && meta.Valid()
      && components.Length == |meta.order|
      && forall s :: 0 <= s < components.Length && components[s] != null ==>
           components[s].ty in meta.exact && meta.exact[components[s].ty] == s
    }

    constructor (meta: Metadata)
      requires meta.Valid()
      ensures Valid() && this.meta == meta && fresh(components)
      ensures forall s :: 0 <= s < components.Length ==> components[s] == null
    {
      this.meta := meta;
      components := new Component?[|meta.order|](_ => null);
    }

    /** Slot s is in t's index set and o, the instance in it, is an instance of t. */
    predicate HoldsAt(t: TypeId, s: nat, o: Component?)
    {
      t in meta.indices && s in meta.indices[t] && o != null && meta.h.IsSubtype(o.ty, t)
    }

    /** Slot s is in t's index set and holds an instance of (a subclass of) t. */
    predicate Holds(t: TypeId, s: nat)
      reads this, components
    {
      s < components.Length && HoldsAt(t, s, components[s])
    }

    /** The first slot at or after s that holds an instance of t, or the slot count. */
    function FirstSlot(t: TypeId, s: nat): (k: nat)
      reads this, components
      requires s <= components.Length
      ensures s <= k <= components.Length
      ensures k < components.Length ==> Holds(t, k)
      ensures forall j :: s <= j < k ==> !Holds(t, j)
      decreases components.Length - s
    {
      if s == components.Length then s
      else if Holds(t, s) then s
      else FirstSlot(t, s + 1)
    }

    lemma {:induction false} FirstSlotUnique(t: TypeId, s: nat, k: nat)
      requires s <= k <= components.Length
      requires k < components.Length ==> Holds(t, k)
      requires forall j :: s <= j < k ==> !Holds(t, j)
      ensures FirstSlot(t, s) == k
      decreases components.Length - s
    {
      if s < k {
        FirstSlotUnique(t, s + 1, k);
      }
    }

    /** What `get_component(t)` returns. */
    function Lookup(t: TypeId): (r: Component?)
      reads this, components
    {
      var k := FirstSlot(t, 0);
      if k < components.Length then components[k] else null
    }

    /** `set_component`: stores o in the slot of its exact class; False if that class has none. */
    method SetComponent(o: Component) returns (stored: bool)
      requires Valid()
      modifies components
      ensures Valid()
      ensures stored == (o.ty in meta.exact)
      ensures stored ==> components[..] == old(components[..])[meta.exact[o.ty] := o]
      ensures !stored ==> components[..] == old(components[..])
    {
      if o.ty in meta.exact {
        var i := meta.exact[o.ty];
        components[i] := o;
        return true;
      }
      return false;
    }

    /**
     * `get_component`: scans t's index set (ascending) for an instance of t.
     * The result is an instance of t from one of t's slots, the first such slot, and
     * null exactly when no slot of t's index set holds an instance of t.
     */
    method GetComponent(t: TypeId) returns (r: Component?)
      requires Valid()
      ensures r == Lookup(t)
      ensures r != null ==> meta.h.IsSubtype(r.ty, t) && exists s: nat :: Holds(t, s) && components[s] == r
      ensures r == null <==> forall s :: 0 <= s < components.Length ==> !Holds(t, s)
    {
      if t !in meta.indices {
        return null;
      }
      var i := 0;
      while i < components.Length
        invariant 0 <= i <= components.Length
        invariant forall j :: 0 <= j < i ==> !Holds(t, j)
      {
        var o := components[i];
        if i in meta.indices[t] && o != null && meta.h.IsSubtype(o.ty, t) {
          FirstSlotUnique(t, 0, i);
          return o;
        }
        i := i + 1;
      }
      FirstSlotUnique(t, 0, components.Length);
      return null;
    }

    /**
     * `entity[t]`: an existing instance of t if one is found; otherwise, when t has a slot of
     * its own, a new t stored in that slot; `NoComponentError` only when neither holds.
     * Afterwards a found or created component is what the next lookup of t returns.
     */
    method Fetch(t: TypeId) returns (r: FetchResult)
      requires Valid()
      modifies components
      ensures Valid()
      ensures old(Lookup(t)) != null ==> r == Found(old(Lookup(t))) && components[..] == old(components[..])
      ensures old(Lookup(t)) == null && t !in meta.exact ==>
        r == NoComponentError(t) && components[..] == old(components[..])
      ensures old(Lookup(t)) == null && t in meta.exact ==>
        r.Found? && fresh(r.c) && r.c.ty == t && r.c.entity == this &&
        components[..] == old(components[..])[meta.exact[t] := r.c]
      ensures r.Found? ==> Lookup(t) == r.c
    {
      var o := GetComponent(t);
      if o != null {
        FirstSlotUnique(t, 0, FirstSlot(t, 0));
        return Found(o);
      }
      if t !in meta.exact {
        return NoComponentError(t);
      }
      ghost var before := components[..];
      forall j | 0 <= j < components.Length ensures !HoldsAt(t, j, before[j]) {
        assert !Holds(t, j);
      }
      var c := new Component(t);
      c.Ready(this);
      StoredIsFirst(t, before);
      return Found(c);
    }

    /** A new instance of t stored in t's own slot, where no slot held an instance of t, is found first. */
    lemma StoredIsFirst(t: TypeId, before: seq<Component?>)
      requires Valid() && t in meta.exact && |before| == components.Length
      requires forall j | 0 <= j < |before| :: !HoldsAt(t, j, before[j])
      requires components[..] == before[meta.exact[t] := components[meta.exact[t]]]
      requires components[meta.exact[t]] != null && components[meta.exact[t]].ty == t
      ensures Lookup(t) == components[meta.exact[t]]
    {
      var slot := meta.exact[t];
      var s :| 0 <= s < |meta.order| && meta.order[s] == t;
      SubtypeReflexive(meta.h, t);
      assert slot == s && slot in meta.indices[t];
      assert Holds(t, slot);
      forall j | 0 <= j < slot ensures !Holds(t, j) {
        assert components[j] == before[j];
      }
      FirstSlotUnique(t, 0, slot);
    }
  }
}
