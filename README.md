# luluwaku, modelled in Dafny

luluwaku is a turn-based text role-playing game engine. Game objects are entities made of
components (a `Board` of statistics, a `Bag`, a `Caster`, a `DamageAccepter`, a `Positional`,
a `Unit`); a global `GameState` keeps a queue of effects that it steps once per round
(`judge`); players act by submitting effects (attack, cast, use or drop an item, form groups,
trade). This project models:

- the component registry (`Metadata` and `Entity`): the slot each declared component type
  gets, the subtype index sets, and component lookup and lazy creation (`Registry`);
- the statistics board and its derived limits (`Stats`), damage, shields, criticals and
  dodging (`Combat`), the map grid with its cells and enter/leave listeners (`Grid`);
- items, swords and the bag (`Inventory`), skills and the caster (`Skills`), units and groups
  (`Units`);
- the effect scheduler (`Scheduler`), the attack effect (`Battle`), the cure and fire-ball
  spells and the skill books (`Spells`);
- the player actions: item and skill actions (`Actions`), group actions (`Party`) and the
  trade protocol (`Trade`);
- the PList helpers and the numeric helpers `clamp`, `get_ratio` and `sign` (`Util`).

Floats are exact reals. Random draws, the distance between two units, and the units along an
attack line are parameters. Listener callbacks are numbered and recorded in traces.

## Model

| member | source | states |
|---|---|---|
| Util.Clamp | luluwaku/core.py:923-924 | the result never falls below the lower bound; it is at most the upper bound when the bounds are ordered; it is the value itself inside the range and the nearer bound outside it |
| Util.ClampInt | luluwaku/core.py:872-878 | the clamp of money and efforts is `Clamp` taken on integers: at least the lower bound, at most the upper, and the value itself inside the range |
| Util.GetRatio | luluwaku/core.py:927-928 | the ratio lies strictly between -1 and 1 and has the sign of its argument, in both directions |
| Util.Sign | luluwaku/core.py:931-936 | the sign is -1, 0 or 1, and sign times absolute value gives back the argument |
| Util.Ceil | luluwaku/core.py:306 | the ceiling is the least integer at or above its argument |
| Util.Cons | luluwaku/core.py:27-29 | consing puts the head in front of the tail's elements |
| Util.Remove | luluwaku/core.py:31-39 | removal drops one occurrence of x: length and count of x fall by one when x is present, no other count changes, and a list without x is returned unchanged |
| Util.RemoveKeepsOrder | luluwaku/core.py:31-39 | removal drops exactly the first occurrence of x: the result is the elements before it followed by the elements after it, in their order |
| Util.CountInElements | luluwaku/core.py:61-72 | membership through `count` agrees with membership in the element sequence, in both directions |
| Util.FirstWhere | luluwaku/actions/group.py:80-82 | the "first match, then break" search: the index returned satisfies the condition and no earlier index does; none means nothing matches |
| Util.FindFirst | luluwaku/actions/transaction.py:27-38 | the looping search returns exactly the first matching index |
| Stats.Trunc | luluwaku/core.py:583 | `int()` truncates toward zero, for positive and negative arguments alike |
| Stats.MaxEfforts | luluwaku/core.py:578-598 | with non-negative CON and SPR the effort limit is at least 10 and exceeds 10 by the truncated 0.7·CON + 0.3·SPR, less than 2 below the exact sum |
| Stats.MaxEffortsTruncates | luluwaku/core.py:578-598 | the effort limit 10 + int(0.7·CON) + int(0.3·SPR) truncates toward zero: CON -1 with SPR 0 gives 10, not 9; CON 10 with SPR 10 gives 20 |
| Stats.ApplyHp | luluwaku/core.py:603-609 | a dead board is unchanged; on a live one hp becomes exactly the value clamped into [0, max HP] (max HP when the value exceeds it), the board stays alive exactly when that hp is non-zero, and `on_death` fires once exactly when it dies, so a max HP of 0 kills |
| Stats.Board.constructor | luluwaku/core.py:548-567 | a new board has the class defaults: zero statistics, attack distance 4, 10 of 10 efforts, alive |
| Stats.Board.ApplySTR | luluwaku/core.py:575-576 | only STR changes, to the value given |
| Stats.Board.ApplyCON | luluwaku/core.py:578-584 | CON and max HP take the value, hp is clamped to the new max, the effort limit is recomputed from CON and SPR, and efforts are clamped under it |
| Stats.Board.ApplyDEX | luluwaku/core.py:586-587 | only DEX changes, to the value given |
| Stats.Board.ApplyINT | luluwaku/core.py:589-590 | only INT changes, to the value given |
| Stats.Board.ApplySPR | luluwaku/core.py:592-598 | SPR takes the value, max MP becomes half of it, mp is clamped under that, and the effort limit and efforts are recomputed |
| Stats.Board.ApplyCHR | luluwaku/core.py:600-601 | only CHR changes, to the value given |
| Stats.Board.ApplyHP | luluwaku/core.py:603-609 | hp, alive and the death count change as `ApplyHp` says |
| Stats.Board.ApplyAttackDist | luluwaku/core.py:611-612 | only the attack distance changes, to the value given |
| Stats.Board.ConsumeEfforts | luluwaku/core.py:614-620 | consumption succeeds if and only if the board is alive and holds more efforts than asked; only then are the efforts reduced |
| Combat.Critical | luluwaku/core.py:656-660 | a critical hit leaves focus and real damage alone and either keeps the damage or doubles both its physical and magical parts |
| Combat.FocusForcesCritical | luluwaku/core.py:656-660 | when focus exceeds 1 + 0.54·SPR·DEX, every non-negative draw is a critical hit |
| Combat.LowFocusZeroDrawNoCritical | luluwaku/core.py:656-660 | below that focus, a zero draw is never a critical hit |
| Combat.DrainShields | luluwaku/core.py:662-672 | draining keeps the number of shields, and non-positive damage passes through untouched |
| Combat.DrainFrontToBack | luluwaku/core.py:662-672 | shields drain front to back: shield k loses what of the hit the shields before it did not absorb, and never drops below 0 |
| Combat.DrainConserves | luluwaku/core.py:662-684 | damage is conserved: shield points lost equal damage absorbed |
| Combat.Dodges | luluwaku/core.py:695-706 | a focus above three times SPR is never dodged; below it a draw of 1 or more always dodges, and a draw of 0 or less never dodges a focus of at least 0.2·SPR + 0.7·DEX + 0.1·CON |
| Combat.DrainLetsThroughExcess | luluwaku/core.py:662-684 | with non-negative shields, what passes through is exactly the damage above the shields' total, and every shield ends between 0 and its old value |
| Combat.ApplyHits | luluwaku/core.py:686-691 | hits on a dead board change nothing, death fires at most once, and all-zero hits change nothing |
| Combat.ApplyThreeHits | luluwaku/core.py:686-691 | physical, magical and real damage are applied in that order, each as its own hp change |
| Combat.DodgeMonotone | luluwaku/core.py:694-706 | a draw that dodges keeps dodging when raised |
| Combat.DodgeAtZero | luluwaku/core.py:694-706 | a zero draw dodges if and only if focus is at most 3·SPR and below the ratio threshold; focus above 3·SPR is never dodged |
| Combat.DamageAccepter.constructor | luluwaku/core.py:644-647 | a new accepter is enabled with no shields |
| Combat.DamageAccepter.SetEnable | luluwaku/core.py:649-650 | only the enable flag changes |
| Combat.DamageAccepter.OnDamage | luluwaku/core.py:652-691 | a disabled accepter changes nothing; an enabled one applies the critical, drains physical then magical shields, and applies what passes through plus real damage |
| Combat.TakeHits | luluwaku/core.py:686-691 | the three conditional hp updates compose to `ApplyHits` |
| Combat.DrainShieldsLoop | luluwaku/core.py:662-672 | the in-place shield loop yields exactly the shields and leftover damage of `DrainShields` |
| Grid.PlaceOf | luluwaku/core.py:285-294 | a cell index i·row + j is a slot exactly when it lies in [0, len); exactly len raises; anything else is outside |
| Grid.WideMapHasSlots | luluwaku/core.py:288-289 | on a map with row ≤ col, every in-range (i, j) has a slot |
| Grid.TallMapOverflows | luluwaku/core.py:288-289 | on a map with row > col, an in-range point can raise or fall outside |
| Grid.SquareMapDistinct | luluwaku/core.py:285-294 | on a square map, distinct in-range points get distinct cells |
| Grid.WideMapCollides | luluwaku/core.py:288 | on a map with row < col, (0, row) and (1, 0) share a cell |
| Grid.NotifyFollowsList | luluwaku/core.py:341-348 | a notification fires every listener once, in list order |
| Grid.RegisterAllReverses | luluwaku/core.py:332-336 | listeners registered one after another are called in reverse registration order |
| Grid.MapCell.constructor | luluwaku/core.py:323-330 | a new cell has pass consumption 1, no units and no listeners |
| Grid.MapCell.RegisterLeaveEvents | luluwaku/core.py:332-333 | a leave listener is put in front of the leave listeners |
| Grid.MapCell.RegisterEnterEvents | luluwaku/core.py:335-336 | an enter listener is put in front of the enter listeners |
| Grid.MapCell.UnsafeLeftBy | luluwaku/core.py:338-342 | the unit leaves the cell's units, and the leave listeners fire only if it was there |
| Grid.MapCell.UnsafeEnteredBy | luluwaku/core.py:344-348 | the unit joins the cell's units, and the enter listeners fire only if it was not already there |
| Grid.CallAll | luluwaku/core.py:341-342 | the listener loop appends exactly the notification trace of the list |
| Grid.CeilWidensCircle | luluwaku/core.py:306-311 | the scan radius is rounded up, so a radius of 1.5 admits points at distance 2 |
| Grid.Map.constructor | luluwaku/core.py:278-283 | a new map has row·col empty cell slots |
| Grid.Map.Get | luluwaku/core.py:285-294 | an outside index gives none, index len raises, and a slot gives its cell, created empty on first use; no other slot changes |
| Grid.Map.FindCellAtPoint | luluwaku/core.py:296-301 | point (x, y) is looked up as row y, column x, with the same three outcomes |
| Grid.Map.FindCellsAtPoints | luluwaku/core.py:370-372 | `set_pos` looks up the old point and then the new one, stopping at a raise |
| Grid.Map.WideMapArea | luluwaku/core.py:296-301 | on a map with row ≤ col, a point has a cell exactly when it is within bounds |
| Grid.Map.CirclePointsExact | luluwaku/core.py:303-311 | the scanned points are exactly the integer points of the closed disk |
| Grid.Map.FindCellsWithinCircle | luluwaku/core.py:303-314 | the cells returned are those of the disk's points in scan order, up to the first point whose lookup fails |
| Grid.Map.ScanRow | luluwaku/core.py:308-314 | one row of the scan appends that row's cells in column order or stops at the first failing lookup |
| Grid.Positional.constructor | luluwaku/core.py:357-364 | a new position is (-1, -1) on its map |
| Grid.Positional.Loc | luluwaku/core.py:366-367 | the location is the map lookup of the current point |
| Grid.Positional.SetPos | luluwaku/core.py:369-380 | a move on the given map, or else on the current one, behaves as `MoveOn` |
| Grid.Positional.MoveOn | luluwaku/core.py:371-380 | a raise in either lookup leaves the point unchanged; otherwise the point moves, and when the cell changes the old cell's leave listeners fire, then the new cell's enter listeners; no other cell changes |
| Grid.Relocate | luluwaku/core.py:375-379 | leaving the old cell and entering the new one touches only those two cells |
| Grid.EnterThenLeave | luluwaku/test/test_map.py:24-50 | the map test: a unit placed off the map has no cell, and moving to (2, 4) then (10, 10) logs one enter then one leave at that cell |
| Grid.Placed | luluwaku/test/test_map.py:14-17 | a user placed at (-1, -1) is off the map and changes no cell |
| Grid.Listening | luluwaku/test/test_map.py:22-38 | a 100×100 map whose cell (2, 4) has one enter and one leave listener |
| Grid.ArriveThenLeave | luluwaku/test/test_map.py:44-50 | the two moves leave exactly the enter, leave trace at the cell |
| Grid.Arrive | luluwaku/test/test_map.py:44 | the first move enters the cell and fires only its enter listener |
| Inventory.SwordWeight | luluwaku/items/weapons/normal_sword.py:16 | a sword weighs 1 plus its level halved, rounded down |
| Inventory.Item.Sword | luluwaku/items/weapons/normal_sword.py:14-17 | a new sword has its level and weight and is not equipped |
| Inventory.Item.Other | luluwaku/core.py:811-813 | a new non-sword item has its kind and weight and is not equipped |
| Inventory.Equip | luluwaku/items/weapons/normal_sword.py:19-23 | equipping raises STR by 2 + 0.9·level and DEX by 0.1·level and keeps the attack distance |
| Inventory.Unequip | luluwaku/items/weapons/normal_sword.py:25-29 | unequipping lowers STR and DEX by the same bonuses and restores the saved attack distance |
| Inventory.UnequipUndoesEquip | luluwaku/items/weapons/normal_sword.py:19-29 | unequipping right after equipping gives back the original statistics |
| Inventory.UnequipTwiceLosesBonus | luluwaku/items/weapons/normal_sword.py:25-29 | unequipping twice takes the STR bonus off twice |
| Inventory.OnEquipped | luluwaku/items/weapons/normal_sword.py:19-23 | the board gains the sword's bonuses and the sword saves the old attack distance |
| Inventory.OnUnequipped | luluwaku/items/weapons/normal_sword.py:25-29 | the board loses the bonuses and gets the saved attack distance back |
| Inventory.Bag.constructor | luluwaku/core.py:854-862 | a new bag is empty, holds no money, and has the default capacity |
| Inventory.Bag.AddMoney | luluwaku/core.py:872-874 | money rises by the amount, clamped into [0, the money cap] |
| Inventory.Bag.RemoveMoney | luluwaku/core.py:876-878 | money falls by the amount, clamped into [0, the money cap] |
| Inventory.Bag.AddItem | luluwaku/core.py:880-888 | an item is added if and only if it is new and fits the capacity; the used capacity rises by its weight and stays the total weight |
| Inventory.Bag.RemoveItem | luluwaku/core.py:893-899 | removal succeeds if and only if the item was present; its weight is freed and an equipped sword is taken off the board |
| Inventory.OnUninstall | luluwaku/core.py:832-833 | uninstalling an item deactivates it: an equipped sword's bonuses come off, and nothing else changes |
| Inventory.OnDeactivated | luluwaku/items/weapon.py:41-50 | deactivation reports whether the sword was equipped; it is then unequipped with its bonuses removed, and otherwise nothing changes |
| Inventory.FindEquippedOther | luluwaku/items/weapon.py:19-26 | the search finds an equipped sword of the bag other than this one, or reports that there is none |
| Inventory.OnActivatedAsWritten | luluwaku/items/weapon.py:16-39 | as written: another equipped sword has its bonuses taken off but stays marked equipped |
| Inventory.OnActivated | luluwaku/items/weapon.py:16-39 | activation equips the sword if it was not equipped, unequips any other equipped sword, and keeps at most one sword equipped |
| Inventory.SwapSwordsAsWritten | luluwaku/items/weapon.py:28-29 | as written, two level-0 swords activated in turn and then both deactivated leave STR at -2 instead of 0 |
| Inventory.SecondThenOffAsWritten | luluwaku/items/weapon.py:28-29 | the second half of that sequence, from the first sword equipped |
| Inventory.SwapSwords | luluwaku/items/weapon.py:28-29 | with the corrected activation the same sequence leaves STR at 0 |
| Inventory.SecondThenOff | luluwaku/items/weapon.py:28-29 | the second half of the corrected sequence |
| Skills.Skill.constructor | luluwaku/core.py:765-766 | a new skill has its kind |
| Skills.Learnt | luluwaku/core.py:795-799 | learning adds a new skill at level 1 and leaves every other entry alone |
| Skills.Forgotten | luluwaku/core.py:801-805 | forgetting removes the skill and leaves every other entry alone |
| Skills.ForgetUndoesLearn | luluwaku/core.py:795-805 | forgetting a skill just learnt gives back the original table |
| Skills.CastingConsumption | luluwaku/items/books/cure.py:34 | a cast costs one or two efforts, two exactly for a cure (a fire ball costs one, `fireball.py:12`) |
| Skills.Caster.constructor | luluwaku/core.py:781-783 | a new caster knows no skill |
| Skills.Caster.Level | luluwaku/core.py:788-789 | an unknown skill has level 0, a known one its stored level |
| Skills.Caster.LevelUp | luluwaku/core.py:791-793 | only a known skill's level rises, by the amount given |
| Skills.Caster.Learn | luluwaku/core.py:795-799 | learning succeeds if and only if the skill is new |
| Skills.Caster.Forget | luluwaku/core.py:801-805 | forgetting succeeds if and only if the skill was known |
| Units.Unit.constructor | luluwaku/core.py:905-907 | a new unit belongs to no group |
| Units.Group.constructor | luluwaku/core.py:728-731 | a new group has its owner and name and no members yet |
| Units.SameGroup | luluwaku/core.py:736-738 | a unit is in its own group, and two units in the same group are either both grouped or both ungrouped |
| Units.UngroupedAreSameGroup | luluwaku/core.py:736-738 | two ungrouped units count as the same group |
| Units.RemoveFirst | luluwaku/core.py:753 | `list.remove` drops one occurrence and keeps every other member |
| Units.RemoveFirstKeepsOrder | luluwaku/core.py:753 | `list.remove` drops exactly the first occurrence: the members before it, then the members after it, in order |
| Units.Parties.constructor | luluwaku/core.py:432 | no group is registered at first |
| Units.Parties.InOneGroup | luluwaku/core.py:741-746 | a unit is a member of at most one registered group |
| Units.Parties.Leave | luluwaku/core.py:750-761 | the unit leaves its group; an emptied group is unregistered, and an owner who leaves is replaced by the first remaining member |
| Units.Parties.Join | luluwaku/core.py:741-746 | joining reports whether the unit changed group; it leaves its old group and is appended to the new one |
| Units.Parties.Enlist | luluwaku/core.py:745-746 | an ungrouped unit is appended to the group |
| Units.Parties.NewGroup | luluwaku/core.py:728-734 | a new group is registered under a free name, with its owner as only member |
| Units.Parties.Found | luluwaku/core.py:732-734 | registering the group and joining its owner keeps the registry consistent |
| Scheduler.FlattenCountsLeaves | luluwaku/core.py:438-444 | adding effects queues one leaf per leaf of their composite trees |
| Scheduler.FinishLighter | luluwaku/core.py:458-464 | a finished effect's replacements weigh less than it did, so a round ends |
| Scheduler.DrainSplit | luluwaku/core.py:458-464 | draining a queue steps its prefix and then the rest, followed by what the prefix spawned |
| Scheduler.Generations | luluwaku/core.py:458-468 | a round steps every queued effect, then everything they spawn, generation by generation |
| Scheduler.DeferOnly | luluwaku/core.py:461-464 | when nothing spawns, a round steps each effect once and defers exactly the pending ones |
| Scheduler.DeferFacts | luluwaku/core.py:461-464 | the deferred effects are exactly the pending queued effects, each stepped once |
| Scheduler.GameState.constructor | luluwaku/core.py:431-435 | a new game state has an empty loop and cache |
| Scheduler.GameState.AddEffect | luluwaku/core.py:438-444 | an effect's leaves are appended to the loop and started |
| Scheduler.GameState.Step | luluwaku/core.py:462-464 | a pending effect is cached for the next round; a finished one queues its spawn |
| Scheduler.GameState.Judge | luluwaku/core.py:458-468 | a round drains the loop and leaves the spare queue empty; the next loop is the old cache followed by the deferred effects |
| Scheduler.Drain | luluwaku/core.py:458-468 | draining steps at least every effect of the queue, and defers no more effects than it steps |
| Scheduler.GameState.MatchingEffects | luluwaku/core.py:450-456 | the matching effects are those of loop and cache that satisfy the predicate, in order |
| Scheduler.FilterMembers | luluwaku/core.py:450-456 | an effect is matched if and only if it is queued and satisfies the predicate |
| Registry.DiscoverFacts | luluwaku/core.py:162-194 | the slot order lists each component type reachable through a declared type's MRO exactly once |
| Registry.RepeatedDeclarationIgnored | luluwaku/core.py:179-180 | declaring a type again adds no slot |
| Registry.RegisteredSetOrderIndependent | luluwaku/core.py:162-194 | the set of slotted types does not depend on declaration order |
| Registry.AddSlotToSuperclasses | luluwaku/core.py:184-188 | the new slot goes into the index set of each of its supertypes |
| Registry.GatherSubclassSlots | luluwaku/core.py:189-194 | the new type's index set gathers the slots of its earlier subtypes |
| Registry.RegisterNew | luluwaku/core.py:181-194 | registering a new type gives it the next slot and keeps every index set exact |
| Registry.AwareComponent | luluwaku/core.py:170-194 | walking one declared type's MRO keeps the slot and index invariants |
| Registry.Build | luluwaku/core.py:162-168 | the metadata's slot order is the discovery order, with exact index sets |
| Registry.IndicesSubtypeClosed | luluwaku/core.py:162-194 | a subtype's slot and index set are included in its supertype's index set |
| Registry.IndicesInRange | luluwaku/core.py:168 | every index of a type names a slot whose type is a subtype of it |
| Registry.ResolutionFirstDeclaration | luluwaku/test/test_resolution.py:17-21 | the first declaration of the resolution test gets slot 0 |
| Registry.ResolutionSecondDeclaration | luluwaku/test/test_resolution.py:17-21 | the second declaration gets slot 1 |
| Registry.ResolutionThirdWalk | luluwaku/test/test_resolution.py:17-21 | walking the third declaration's MRO adds only the new type |
| Registry.ResolutionOrder | luluwaku/test/test_resolution.py:17-21 | the final slot order of the resolution test |
| Registry.ResolutionExample | luluwaku/test/test_resolution.py:13-25 | the resolution test's index sets |
| Registry.Component.constructor | luluwaku/core.py:197-198 | a new component is not attached to an entity |
| Registry.Component.Ready | luluwaku/core.py:200-202 | readying attaches the component and stores it in its own slot |
| Registry.Entity.constructor | luluwaku/core.py:235-236 | a new entity has one empty slot per registered type |
| Registry.Entity.FirstSlot | luluwaku/core.py:246-253 | the scan stops at the first slot holding an instance of the type |
| Registry.Entity.SetComponent | luluwaku/core.py:238-244 | a component of a registered type is stored in its type's slot only; an unregistered type stores nothing |
| Registry.Entity.GetComponent | luluwaku/core.py:246-253 | the lookup returns the first instance of a subtype in slot order, or none exactly when no slot holds one |
| Registry.Entity.Fetch | luluwaku/core.py:255-266 | `entity[T]` returns an existing instance; otherwise an unregistered type fails, and a registered one is created, stored and found from then on |
| Registry.Entity.StoredIsFirst | luluwaku/core.py:259-266 | a new instance stored where no slot held one is what later lookups find |
| Battle.NormalAtkIsPhysical | luluwaku/actions/attack.py:4-11 | with non-negative statistics a normal attack is purely physical, at least 1, with focus at least 1 |
| Battle.FireBallIsMagical | luluwaku/items/books/fireball.py:28-33 | a fire ball is purely magical, at least twice its level |
| Battle.Targets | luluwaku/core.py:523-530 | without an area of effect, the target is hit exactly when it is within reach |
| Battle.PlanMembers | luluwaku/core.py:531-541 | a target is struck if and only if it is not in the attacker's group, has an accepter, does not dodge, and no earlier target outside the attacker's group lacks an accepter |
| Battle.PlanIncreasing | luluwaku/core.py:531-541 | targets are struck in line order, each at most once |
| Battle.AttackStep | luluwaku/core.py:520-542 | the attack finishes in one step, strikes exactly the planned targets, leaves every spared target unchanged, and leaves each struck target that no other target shares a board with in the standing `on_damage` gives it |
| Battle.Strikes | luluwaku/core.py:531-541 | the target loop strikes exactly the planned targets, in range; spared targets keep their standing, and a struck target alone on its board ends with its old standing hurt by the attacker's damage |
| Battle.Resolve | luluwaku/core.py:532-541 | one target's verdict; on a strike the target's HP, life and shields become exactly what `on_damage` makes of them, and nothing else that could be hit changes; otherwise nothing changes |
| Battle.Damaged | luluwaku/core.py:652-692 | a hit on a unit without an enabled accepter changes nothing; a hit keeps the number of shields and leaves a dead unit's vitals alone |
| Battle.DamageOf | luluwaku/actions/attack.py:6-12 | no attack deals real damage; a normal attack is purely physical and a fire ball purely magical |
| Battle.VerdictOf | luluwaku/core.py:531-541 | a target is skipped exactly when it is in the attacker's group, stops the loop exactly when it is outside that group without an accepter, only a dodger with an accepter dodges, and a target with an accepter and no dodger outside the group is struck |
| Battle.NormalAttackStep | luluwaku/actions/attack.py:19-29 | a normal attack costs 2 efforts and submits one attack exactly when they can be spent |
| Actions.OnActivatedItem | luluwaku/items/drug.py:10-15 | a drug leaves the bag, frees its weight and submits its effect; a sword equips itself and, with no other sword equipped, adds its bonuses unless it was already on; a book teaches its skill; any other item does nothing |
| Actions.ActivateStep | luluwaku/actions/item.py:16-23 | an item not in the bag is refused without cost; otherwise one effort is spent and the item activates exactly when that succeeds |
| Actions.DeactivateStep | luluwaku/actions/item.py:32-37 | an item in the bag is deactivated at no cost; an equipped sword comes off |
| Actions.CastStep | luluwaku/actions/skill.py:11-19 | an unlearnt skill is refused without cost; otherwise its consumption is spent, and on success the cure or fire ball is made and the skill levels up |
| Spells.SkillDistance | luluwaku/items/books/cure.py:28-29 | the cure reaches at least 10 exactly when its level is non-negative |
| Spells.SkillDist | luluwaku/items/books/fireball.py:6-7 | the fire ball reaches at least 7.2 exactly when its level is non-negative |
| Spells.HealingOf | luluwaku/items/books/cure.py:52-58 | a cure heals the unit it was cast on, and its total is twice each step's heal |
| Spells.Condition | luluwaku/items/books/cure.py:64-67 | every book asks for more than 5 MP and more than 3 INT and SPR |
| Spells.ReachGrows | luluwaku/items/books/cure.py:28-29 | both skill reaches grow with level, and the cure reaches further than the fire ball |
| Spells.CureIsTwoHalves | luluwaku/items/books/cure.py:54-56 | the cure's total is twice each step's heal, and each step heals at least the level when the level is positive and the target's INT and SPR are non-negative |
| Spells.HealPlanSum | luluwaku/items/books/cure.py:17-25 | the heals of a cure add up to its total |
| Spells.HealPlanLength | luluwaku/items/books/cure.py:17-25 | a cure heals in ⌈total / each⌉ steps, at least one |
| Spells.HealPlanSteps | luluwaku/items/books/cure.py:17-25 | every heal but the last is one step's amount, and the last is at most that |
| Spells.CureTakesTwoSteps | luluwaku/items/books/cure.py:54-58 | a cast cure heals in exactly two equal steps |
| Spells.CureEffect.constructor | luluwaku/items/books/cure.py:12-15 | a new cure has its target, total and step amount |
| Spells.CureEffect.Step | luluwaku/items/books/cure.py:17-25 | a step heals one step's amount, or what is left and finishes; the heal goes through `apply_HP` |
| Spells.RunCure | luluwaku/items/books/cure.py:17-25 | stepping a cure to the end heals exactly its plan, whose sum is the total |
| Spells.CureCast | luluwaku/items/books/cure.py:42-59 | a cure is made if and only if there is a target, the level is non-zero and the target is within reach; on success the skill levels up |
| Spells.FireBallCast | luluwaku/items/books/fireball.py:17-38 | a fire ball is made if and only if there is a target and the level is non-zero; on success the skill levels up |
| Spells.FireBookIsStricter | luluwaku/items/books/fireball.py:43-45 | whoever may read the fire book may read the cure book, but not the other way round |
| Spells.BookOnActivatedAsWritten | luluwaku/items/book.py:14-21 | as written: reading succeeds whenever the condition holds, because each read creates a new skill object |
| Spells.BookOnActivated | luluwaku/items/book.py:14-21 | reading succeeds if and only if the condition holds and the skill's kind is not yet known; the book leaves the bag and at most one skill per kind is kept |
| Spells.ReadTwoBooksAsWritten | luluwaku/items/book.py:17-18 | as written, two cure books teach Cure twice and are both used up |
| Spells.ReadTwoBooks | luluwaku/items/book.py:17-18 | with the corrected read, the second book is refused and stays in the bag |
| Trade.Settle | luluwaku/actions/transaction.py:220-224 | a settled balance lies in [0, MAX_MONEY], and equals balance plus gain minus cost when neither clamp applies |
| Trade.SettleConserves | luluwaku/actions/transaction.py:220-224 | without clamping, settling moves money from one side to the other with no loss |
| Trade.SettleCanLoseMoney | luluwaku/actions/transaction.py:220-224 | the money cap can make settling destroy money |
| Trade.Pay | luluwaku/actions/transaction.py:220-224 | each side ends with its balance settled, both within [0, MAX_MONEY]; on one bag shared by both sides, the two settlements follow each other |
| Trade.Hand | luluwaku/actions/transaction.py:226-228 | an item is offered to the receiver only when the giver gave it up, and the receiver takes it unless it already holds it or it does not fit |
| Trade.HandEach | luluwaku/actions/transaction.py:226-228 | the settlement loop keeps, item after item, the account of what has left the giver, what has reached the receiver with its weight, which swords came off and what that cost the giver's board, and that a rejected item does not fit |
| Trade.Transfer | luluwaku/actions/transaction.py:226-232 | the moved items leave the giver with their weight, and the giver's equipped swords among them come off its gear; every one the giver held reaches the receiver unless it does not fit even afterwards, and all of them arrive when they fit together |
| Trade.Exchange | luluwaku/actions/transaction.py:226-232 | after both loops each bag keeps what it did not give and gains only what the other gave; with disjoint bags, no negative weights and room on the receiving side, it gains all of it |
| Trade.Trade.constructor | luluwaku/actions/transaction.py:165-173 | a new trade is unshaken and uncancelled, except that a dead target counts as having shaken |
| Trade.Trade.Outcome | luluwaku/actions/transaction.py:175-218 | a trade reports cancellation exactly when it is cancelled, and settles only when both bags hold the items they give |
| Trade.Trade.SettlesIff | luluwaku/actions/transaction.py:175-218 | a trade settles if and only if it is not cancelled, both sides have shaken, each side has the money it pays, and each side's bag holds the items it gives; it waits if and only if it is not cancelled and a side has not shaken |
| Trade.Trade.Step | luluwaku/actions/transaction.py:175-235 | the trade waits until cancelled or shaken by both; a trade that does not settle changes neither bag, board nor item; a settled one moves the money, clamped (on one bag shared by both sides, the four money updates in turn), and each bag ends with exactly its own items minus what it gave plus what it got when it has room for them |
| Trade.FirstWith | luluwaku/actions/transaction.py:27-38 | the trade addressed by a ticket is the first queued trade with that ticket |
| Trade.FindTrade | luluwaku/actions/transaction.py:27-38 | the search loop finds exactly that trade |
| Trade.Cancel | luluwaku/actions/transaction.py:26-39 | only the addressed trade is cancelled |
| Trade.Shake | luluwaku/actions/transaction.py:50-71 | only the addressed trade records the shake of its emitter or target |
| Trade.SideOf | luluwaku/actions/transaction.py:92-97 | a stranger edits nothing; for the emitter `ask_other` picks cost over gain, and for the target the reverse |
| Trade.AskOtherFlips | luluwaku/actions/transaction.py:92-95 | for a party of the trade, flipping `ask_other` flips the side edited |
| Trade.ModMoney | luluwaku/actions/transaction.py:86-104 | only the side edited of the addressed trade gets the new money |
| Trade.ModMoneyFreshTicketIsInert | luluwaku/actions/transaction.py:80-81 | a ticket created by the edit itself addresses no queued trade |
| Trade.Modified | luluwaku/actions/transaction.py:141-150 | adding puts the item in and removing takes it out; money and other items stay |
| Trade.RemoveUndoesAdd | luluwaku/actions/transaction.py:141-150 | removing an item just added gives back the original side |
| Trade.ModItem | luluwaku/actions/transaction.py:128-152 | only the side edited of the addressed trade gets the item added or removed |
| Party.JoinRequest.constructor | luluwaku/actions/group.py:32-35 | a new join request is pending |
| Party.CreateStep | luluwaku/actions/group.py:11-17 | a taken name changes nothing; otherwise the emitter leaves its group and owns a new one |
| Party.LeaveStep | luluwaku/actions/group.py:25-27 | the emitter leaves its group in one step: its first occurrence is removed, an emptied group is unregistered and the registry is otherwise unchanged, and when the owner leaves a non-empty group the first remaining member becomes owner |
| Party.JoinStepAsWritten | luluwaku/actions/group.py:37-51 | as written: an agreed join raises exactly when the emitter is the only member of the group it asks for |
| Party.JoinStep | luluwaku/actions/group.py:37-51 | a missing group or a refusal ends the request, a pending one waits, and an agreed one makes the emitter a member of the group, which stays registered |
| Party.Addressed | luluwaku/actions/group.py:62-82 | an answer addresses the first request for the group from the requester, and none when the group is missing or the responder does not own it |
| Party.ResponseJoinStep | luluwaku/actions/group.py:62-83 | only the addressed request is agreed or refused |
| Party.OwnerAgrees | luluwaku/actions/group.py:71-82 | the owner's yes reaches a queued request |
| Party.RejoinAloneAsWritten | luluwaku/actions/group.py:48-49 | as written, a sole member let into its own group raises |
| Party.RejoinAlone | luluwaku/actions/group.py:48-50 | the corrected step keeps that group and its member as they were |

## Left out

- Movement (`actions/movement.py`), `compute_distance` and `select_line_targets` are not part of this model: the measured distance and the units along a line are parameters of the attack.
- Random draws (`random.random()` for criticals and dodges) are parameters.
- `GameState.log` and all logging are left out; they change no game state.
- Listeners are numbered, and the calls they make are recorded as a trace of firings. `on_death` is a death counter.
- Trade tickets are natural numbers instead of uuid strings.
- Level-up amounts after a cast are parameters.
- `Buff` is left out: no code applies or removes a buff.
- `search_item_by_name` is left out: it only raises `NotImplementedError`.
- Components are created lazily only in `Registry`; elsewhere a unit's components are fixed fields.
- Shields are values in a sequence, so two accepters never share a shield object.
- Combat.DamageAccepter.OnDamage: the critical hit's change to the damage object is modelled on a copy, so the caller does not see it.
- Grid.Positional.SetPos: `set_pos` exceptions other than the `IndexError` lookup are not modelled.
- Trade: `cost` and `gain` are values, so a `Data` object shared between the two sides is not modelled.
- Trade.Trade.Step: the bag contents after settling are stated only when the two bags are distinct (the money is stated for one shared bag too); they are stated exactly only when the bags share no item, no item weighs less than nothing and the receiving bag has room for everything, and otherwise as bounds.
- Trade.Transfer: the attack distance the giver ends with is stated only as that saved by one of the swords taken off, because the source walks a set whose order is not modelled; that a rejected item does not fit is stated only when no moving item has a negative weight.
- Actions.ActivateStep: the target passed to `on_activated` is dropped; no item reads it.
- Actions.ActivateStep: dispatches to the corrected sword and book activations of the first two Findings rows, so its contract promises the intended behaviour, not the source's: an activated sword unequips the other sword, and a book whose skill kind is known stays in the bag.
- Actions.OnActivatedItem: dispatches to the corrected `Inventory.OnActivated` and `Spells.BookOnActivated`, not to their as-written models, for the same reason; the as-written behaviour is stated by `Inventory.OnActivatedAsWritten` and `Spells.BookOnActivatedAsWritten` only.
- Actions.OnActivatedItem: the new gear of a sword is stated only when no other sword was equipped; with one, it is stated by `Inventory.OnActivated`.
- Actions.OnActivatedItem: the `True`/`False` results of `on_activated` are not returned, because `Activate` ignores them.
- Battle.Strikes: the new standing of a struck target is stated only for a target that no other target shares a board with; a board under two struck targets takes both hits in turn, which the contract does not spell out.
- Battle.AttackStep: the same restriction as `Battle.Strikes` on the standing of struck targets.
- Spells.CureCast: a target entity without a `Unit` component is the same as no target.
- Spells.HealPlan: requires a positive per-step heal. A cure effect whose per-step heal is zero or negative while more than that is left would heal forever (`cure.py:17-25`); a cure that `CureCast` creates at a positive level, for a target with non-negative INT and SPR, heals at least that level per step, by `Spells.CureIsTwoHalves`.
- Spells.RunCure: the same positive per-step heal as `Spells.HealPlan`.
- Floats are exact reals, so rounding is not modelled.
- Party.JoinStep: the "unknown error" branch (`group.py:45-47`) cannot happen, because `Answer` has only three values.
- Party.ResponseJoinStep: `matching_effects` over all effects is given as the in-flight join requests, in queue order.
- Party.JoinStepAsWritten: the `KeyError` is a `raised` flag and does not unwind the scheduler.
- Inventory: a bag's items are a set, so the order in which Python iterates over a set is not modelled. `FindEquippedOther` may return any equipped other sword.
- Util: the PList `__len__`, `__getitem__` and `__iter__` plumbing is modelled only through `Elements`.
- Registry: a type's index array is a set of slots, taken in ascending order.
- Scheduler: effects are scripted leaves with a fixed number of pending steps and the effects they spawn when they finish. Composite effects are finite trees.
- Actions.CastStep: `Cast` is not an `Effect` in the source; its step is modelled like the others.

## Findings

| source | as written | input that shows it | evidently intended | confidence | as-written member | corrected member |
|---|---|---|---|---|---|---|
| luluwaku/items/weapon.py:28-29 | activating a sword calls `on_unequipped` on the other equipped sword but leaves its `is_equipped` set | two level-0 swords: activate the first, activate the second, deactivate both; STR ends at -2 instead of 0 | the other sword is marked unequipped too | not executed | Inventory.SwapSwordsAsWritten | Inventory.SwapSwords |
| luluwaku/items/book.py:17-18 | `imply` creates a new skill object on each read and `learn` keys skills by object, so learning always succeeds | two cure books read in turn: Cure is learnt twice and both books are used up | a skill whose kind is already known is not learnt again, and the book is kept | not executed | Spells.ReadTwoBooksAsWritten | Spells.ReadTwoBooks |
| luluwaku/actions/group.py:48-50 | `Group.leave` runs before the group is looked up by name | the only member of group "a" has its request to join "a" agreed: leaving unregisters "a" and the lookup raises `KeyError` | the group is looked up first, and `Group.join` does the leaving | not executed | Party.RejoinAloneAsWritten | Party.RejoinAlone |
