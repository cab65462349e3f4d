/**
  The simulation engine of `core.rs`: commands are translated into events
  (using an injected stream of combat draws in place of `thread_rng`), events
  are pushed onto a working list that is drained with `pop`, and every
  drained event updates the current player, is handed to the world state and
  is broadcast to every player's queue, from which `get_event` reads FIFO.

  The world state (`GameState`) is not part of this model beyond a map from
  unit ids to units, into which a `CreateUnit` event inserts one unit.
 */
module Engine {
  import opened Wrappers
  import opened HexDir
  import opened HexMap
  import opened Catalog

  /** A path as produced by the pathfinder: a sequence of positions. */
  type MapPath = seq<MapPos>

  datatype Command =
    | Move(unitId: int, path: MapPath)
    | EndTurn
    | CreateUnit(pos: MapPos)
    | AttackUnit(attackerId: int, defenderId: int)

  datatype CoreEvent =
    | Move(unitId: int, path: MapPath)
    | EndTurn(oldId: int, newId: int)
    | CreateUnit(unitId: int, pos: MapPos, typeId: int, playerId: int)
    | AttackUnit(attackerId: int, defenderId: int, killed: bool)

  /** The part of a unit that the engine reads: its id, position, owner and type. */
  datatype Unit = Unit(id: int, pos: MapPos, playerId: int, typeId: int)

  /** Every unit is stored under its own id and has a type in the catalog. */
  predicate UnitsWellTyped(units: map<int, Unit>, unitTypes: seq<UnitType>) {
    forall id :: id in units ==> units[id].id == id && 0 <= units[id].typeId < |unitTypes|
  }

  /** A `CreateUnit` event names a type in the catalog. */
  predicate EventWellTyped(e: CoreEvent, unitTypes: seq<UnitType>) {
    e.CreateUnit? ==> 0 <= e.typeId < |unitTypes|
  }

  // ---------------------------------------------------------------------
  // Fresh unit ids
  // ---------------------------------------------------------------------

  predicate IsMax(ids: set<int>, m: int) {
    m in ids && forall k :: k in ids ==> k <= m
  }

  lemma {:induction false} MaxExists(ids: set<int>)
    requires exists k :: k in ids
    ensures exists m :: IsMax(ids, m)
    decreases |ids|
  {
    var x :| x in ids;
    if exists k :: k in ids - {x} {
      MaxExists(ids - {x});
      var m :| IsMax(ids - {x}, m);
      assert forall k :: k in ids ==> k == x || k in ids - {x};
      if x > m {
        assert IsMax(ids, x);
      } else {
        assert IsMax(ids, m);
      }
    } else {
      forall k | k in ids
        ensures k == x
      {
        assert k == x || k in ids - {x};
      }
      assert IsMax(ids, x);
    }
  }

  /** `get_new_unit_id`: one more than the largest live id, or 0 when there are no units. */
  function NewUnitId(ids: set<int>): (r: int)
    ensures ids == {} ==> r == 0
    ensures (exists k :: k in ids) ==> r - 1 in ids
    ensures forall k :: k in ids ==> k < r
  {
    if exists k :: k in ids then
      MaxExists(ids);
      var m :| IsMax(ids, m);
      m + 1
    else 0
  }

  /** Ids are handed out in increasing order: once the fresh id is in use, the next one is one larger. */
  lemma NewUnitIdIncreases(units: map<int, Unit>, u: Unit)
    ensures NewUnitId(units[NewUnitId(units.Keys) := u].Keys) == NewUnitId(units.Keys) + 1
  {
    var r := NewUnitId(units.Keys);
    var after := units[r := u].Keys;
    assert r in after;
    var s := NewUnitId(after);
    assert r < s;
    assert s - 1 in after;
  }

  // ---------------------------------------------------------------------
  // Players and turns
  // ---------------------------------------------------------------------

  /** The roster is ids 0 .. n-1 in order, as `get_players_list` builds it. */
  predicate IsRoster(players: seq<int>) {
    |players| >= 1 && forall i :: 0 <= i < |players| ==> players[i] == i
  }

  /** The player after `prev` when there are `count` players: wraps to 0 after the last one. */
  function NextPlayer(prev: int, count: int): (n: int)
    ensures 0 <= prev < count ==> n == (prev + 1) % count
  {
    if prev + 1 == count then 0 else prev + 1
  }

  /** The current player after `k` turns starting from `p`. */
  function TurnAfter(p: int, count: int, k: nat): int {
    if k == 0 then p else NextPlayer(TurnAfter(p, count, k - 1), count)
  }

  /** Euclidean division is unique: a quotient and remainder in range are the ones `/` and `%` give. */
  lemma ModUnique(a: int, n: int, q: int, m: int)
    requires n >= 1 && 0 <= m < n && a == n * q + m
    ensures a % n == m
  {
    var q', m' := a / n, a % n;
    assert a == n * q' + m';
    if q' > q {
      assert n * q' == n * q + n * (q' - q);
      MulMono(n, 1, q' - q);
      assert false;
    } else if q' < q {
      assert n * q == n * q' + n * (q - q');
      MulMono(n, 1, q - q');
      assert false;
    }
  }

  lemma ModSucc(a: int, n: int)
    requires n >= 1
    ensures (a % n + 1) % n == (a + 1) % n
  {
    var q, m := a / n, a % n;
    assert a == n * q + m;
    if m + 1 == n {
      assert a + 1 == n * (q + 1) + 0;
      ModUnique(a + 1, n, q + 1, 0);
      ModUnique(m + 1, n, 1, 0);
    } else {
      ModUnique(a + 1, n, q, m + 1);
      ModUnique(m + 1, n, 0, m + 1);
    }
  }

  /** Turns rotate round-robin: after `k` turns the current player is `(p + k) mod count`. */
  lemma {:induction false} TurnAfterRotates(p: int, count: int, k: nat)
    requires 0 <= p < count
    ensures TurnAfter(p, count, k) == (p + k) % count
  {
    if k > 0 {
      TurnAfterRotates(p, count, k - 1);
      var prev := (p + k - 1) % count;
      assert TurnAfter(p, count, k) == NextPlayer(prev, count) == (prev + 1) % count;
      ModSucc(p + k - 1, count);
    }
  }

  /** A full round of turns returns to the player who started it. */
  lemma FullRoundReturns(p: int, count: int)
    requires 0 <= p < count
    ensures TurnAfter(p, count, count) == p
  {
    TurnAfterRotates(p, count, count);
    ModUnique(p + count, count, 1, p);
  }

  /** `apply_event` on the current player: an `EndTurn` whose new id is on the roster takes effect only if its old id is the current player. */
  function ApplyToCurrent(players: seq<int>, current: int, e: CoreEvent): (c: int)
    ensures e.EndTurn? && e.newId in players && current == e.oldId ==> c == e.newId
    ensures !(e.EndTurn? && e.newId in players && current == e.oldId) ==> c == current
  {
    match e
    case EndTurn(oldId, newId) =>
      if newId in players && current == oldId then newId else current
    case _ => current
  }

  // ---------------------------------------------------------------------
  // Combat
  // ---------------------------------------------------------------------

  datatype Thresholds = Thresholds(hit: int, pierce: int, wound: int)

  /** The three thresholds of `hit_test`, from the defender's type, the weapon and the attacker's type. */
  function AttackThresholds(attacker: UnitType, weapon: WeaponType, defender: UnitType): Thresholds {
    Thresholds(
      -15 + defender.size + weapon.accuracy + attacker.weaponSkill,
      5 - defender.armor + weapon.ap,
      -defender.toughness + weapon.damage)
  }

  /** A kill needs three successive draws, each below its threshold. */
  predicate Kills(t: Thresholds, dice: nat -> int, at: nat) {
    dice(at) < t.hit && dice(at + 1) < t.pierce && dice(at + 2) < t.wound
  }

  /**
    The ordered hit, pierce and wound tests, reading draws from `at` on; the
    result is the verdict and the position of the next unread draw. The first
    failing test ends the chain, so the draws after it are not read.
   */
  function ThreeTests(t: Thresholds, dice: nat -> int, at: nat): (r: (bool, nat))
    ensures r.0 <==> Kills(t, dice, at)
    ensures dice(at) >= t.hit ==> r.1 == at + 1
    ensures dice(at) < t.hit && dice(at + 1) >= t.pierce ==> r.1 == at + 2
    ensures dice(at) < t.hit && dice(at + 1) < t.pierce ==> r.1 == at + 3
  {
    if !(dice(at) < t.hit) then (false, at + 1)
    else if !(dice(at + 1) < t.pierce) then (false, at + 2)
    else if !(dice(at + 2) < t.wound) then (false, at + 3)
    else (true, at + 3)
  }

  /** The weapon carried by a unit, through its type. */
  function WeaponOf(u: Unit, unitTypes: seq<UnitType>, weaponTypes: seq<WeaponType>): (w: WeaponType)
    requires WellFormed(unitTypes, weaponTypes) && 0 <= u.typeId < |unitTypes|
    ensures w in weaponTypes
  {
    weaponTypes[unitTypes[u.typeId].weaponTypeId]
  }

  /** The attacker's weapon reaches the defender. */
  predicate InRange(attacker: Unit, defender: Unit, unitTypes: seq<UnitType>, weaponTypes: seq<WeaponType>)
    requires WellFormed(unitTypes, weaponTypes) && 0 <= attacker.typeId < |unitTypes|
  {
    Distance(attacker.pos, defender.pos) <= WeaponOf(attacker, unitTypes, weaponTypes).maxDistance
  }

  /** `hit_test`: out of range it reports no kill and reads no draw; otherwise the three tests decide. */
  function HitTest(attacker: Unit, defender: Unit, unitTypes: seq<UnitType>, weaponTypes: seq<WeaponType>,
                   dice: nat -> int, at: nat): (r: (bool, nat))
    requires WellFormed(unitTypes, weaponTypes)
    requires 0 <= attacker.typeId < |unitTypes| && 0 <= defender.typeId < |unitTypes|
    ensures !InRange(attacker, defender, unitTypes, weaponTypes) ==> r == (false, at)
    ensures InRange(attacker, defender, unitTypes, weaponTypes) ==>
      (r.0 <==> Kills(AttackThresholds(unitTypes[attacker.typeId], WeaponOf(attacker, unitTypes, weaponTypes),
                                        unitTypes[defender.typeId]), dice, at))
    ensures InRange(attacker, defender, unitTypes, weaponTypes) ==>
      r == ThreeTests(AttackThresholds(unitTypes[attacker.typeId], WeaponOf(attacker, unitTypes, weaponTypes),
                                       unitTypes[defender.typeId]), dice, at)
    ensures at <= r.1 <= at + 3
  {
    var weapon := WeaponOf(attacker, unitTypes, weaponTypes);
    if Distance(attacker.pos, defender.pos) > weapon.maxDistance then (false, at)
    else ThreeTests(AttackThresholds(unitTypes[attacker.typeId], weapon, unitTypes[defender.typeId]), dice, at)
  }

  /**
    With draws from `gen_range(-5, 5)`, a soldier's rifle never kills a tank:
    its pierce threshold is `5 - 11 + 1 = -5` and no draw is below -5.
   */
  lemma RifleNeverKillsTank(attacker: Unit, defender: Unit, dice: nat -> int, at: nat)
    requires DrawsInRange(dice) && attacker.typeId == 1 && defender.typeId == 0
    ensures !HitTest(attacker, defender, [Tank(0), Soldier(1)], [Cannon(), Rifle()], dice, at).0
  {
    assert -5 <= dice(at + 1);
  }

  /**
    With the same draws, a tank's cannon in range kills a soldier exactly when
    the hit draw is below -1: the pierce (13) and wound (7) tests always pass.
   */
  lemma CannonKillsSoldierOnHit(attacker: Unit, defender: Unit, dice: nat -> int, at: nat)
    requires DrawsInRange(dice) && attacker.typeId == 0 && defender.typeId == 1
    requires Distance(attacker.pos, defender.pos) <= Cannon().maxDistance
    ensures HitTest(attacker, defender, [Tank(0), Soldier(1)], [Cannon(), Rifle()], dice, at).0 <==> dice(at) < -1
  {
    assert dice(at + 1) < 5 && dice(at + 2) < 5;
  }

  /** `command_attack_unit_to_event`: an attack out of range is dropped silently; otherwise it is resolved. */
  function CommandAttackUnitToEvent(units: map<int, Unit>, unitTypes: seq<UnitType>, weaponTypes: seq<WeaponType>,
                                    attackerId: int, defenderId: int, dice: nat -> int, at: nat): (r: (Option<CoreEvent>, nat))
    requires WellFormed(unitTypes, weaponTypes) && UnitsWellTyped(units, unitTypes)
    requires attackerId in units && defenderId in units
    ensures r.0.Some? <==> InRange(units[attackerId], units[defenderId], unitTypes, weaponTypes)
    ensures r.0.None? ==> r.1 == at
    ensures r.0.Some? ==>
      r.0.value.AttackUnit? && r.0.value.attackerId == attackerId && r.0.value.defenderId == defenderId
      && (r.0.value.killed <==>
            Kills(AttackThresholds(unitTypes[units[attackerId].typeId], WeaponOf(units[attackerId], unitTypes, weaponTypes),
                                   unitTypes[units[defenderId].typeId]), dice, at))
    ensures r.0.Some? ==>
      r.0.value.killed == HitTest(units[attackerId], units[defenderId], unitTypes, weaponTypes, dice, at).0
      && r.1 == HitTest(units[attackerId], units[defenderId], unitTypes, weaponTypes, dice, at).1
  {
    var attacker := units[attackerId];
    var defender := units[defenderId];
    if Distance(attacker.pos, defender.pos) <= WeaponOf(attacker, unitTypes, weaponTypes).maxDistance then
      var (hit, next) := HitTest(attacker, defender, unitTypes, weaponTypes, dice, at);
      (Some(CoreEvent.AttackUnit(attackerId, defenderId, hit)), next)
    else
      (None, at)
  }

  // ---------------------------------------------------------------------
  // Command translation
  // ---------------------------------------------------------------------

  /**
    `command_to_event`: the event a command becomes in the given state, and
    the position of the next unread combat draw.
   */
  function CommandToEvent(units: map<int, Unit>, players: seq<int>, current: int,
                          unitTypes: seq<UnitType>, weaponTypes: seq<WeaponType>,
                          dice: nat -> int, at: nat, cmd: Command): (r: (Option<CoreEvent>, nat))
    requires WellFormed(unitTypes, weaponTypes) && UnitsWellTyped(units, unitTypes)
    requires cmd.CreateUnit? ==> FindUnitType(unitTypes, "soldier").Some?
    requires cmd.AttackUnit? ==> cmd.attackerId in units && cmd.defenderId in units
    ensures !cmd.AttackUnit? ==> r.0.Some? && r.1 == at
    ensures cmd.EndTurn? ==> r.0.value == CoreEvent.EndTurn(current, NextPlayer(current, |players|))
    ensures cmd.Move? ==> r.0.value == CoreEvent.Move(cmd.unitId, cmd.path)
    ensures cmd.CreateUnit? ==>
      r.0.value.CreateUnit? && r.0.value.pos == cmd.pos && r.0.value.playerId == current
      && r.0.value.typeId == FindUnitType(unitTypes, "soldier").value
      && r.0.value.unitId == NewUnitId(units.Keys)
      && r.0.value.unitId !in units && (forall id :: id in units ==> id < r.0.value.unitId)
    ensures cmd.AttackUnit? ==>
      r == CommandAttackUnitToEvent(units, unitTypes, weaponTypes, cmd.attackerId, cmd.defenderId, dice, at)
    ensures r.0.Some? ==> EventWellTyped(r.0.value, unitTypes)
  {
    match cmd
    case EndTurn =>
      (Some(CoreEvent.EndTurn(current, NextPlayer(current, |players|))), at)
    case CreateUnit(pos) =>
      (Some(CoreEvent.CreateUnit(NewUnitId(units.Keys), pos, FindUnitType(unitTypes, "soldier").value, current)), at)
    case Move(unitId, path) =>
      (Some(CoreEvent.Move(unitId, path)), at)
    case AttackUnit(attackerId, defenderId) =>
      CommandAttackUnitToEvent(units, unitTypes, weaponTypes, attackerId, defenderId, dice, at)
  }

  /** On a roster, the event of `EndTurn` always takes effect and hands the turn to the next player. */
  lemma EndTurnAdvances(units: map<int, Unit>, players: seq<int>, current: int,
                        unitTypes: seq<UnitType>, weaponTypes: seq<WeaponType>, dice: nat -> int, at: nat)
    requires WellFormed(unitTypes, weaponTypes) && UnitsWellTyped(units, unitTypes)
    requires IsRoster(players) && 0 <= current < |players|
    ensures ApplyToCurrent(players, current,
              CommandToEvent(units, players, current, unitTypes, weaponTypes, dice, at, Command.EndTurn).0.value)
            == (current + 1) % |players|
  {
    var n := NextPlayer(current, |players|);
    assert 0 <= n < |players| && players[n] == n;
  }

  // ---------------------------------------------------------------------
  // World state and the drain order
  // ---------------------------------------------------------------------

  /** The world state's reaction to an event, as far as it is modelled: `CreateUnit` inserts the unit. */
  function GameStateApply(units: map<int, Unit>, e: CoreEvent): map<int, Unit> {
    match e
    case CreateUnit(unitId, pos, typeId, playerId) => units[unitId := Unit(unitId, pos, playerId, typeId)]
    case _ => units
  }

  /** `CreateUnit` adds exactly its unit under its id; every other unit, and every other event, leaves the units as they were. */
  lemma GameStateApplyFrame(units: map<int, Unit>, e: CoreEvent)
    ensures e.CreateUnit? ==>
      GameStateApply(units, e).Keys == units.Keys + {e.unitId}
      && GameStateApply(units, e)[e.unitId] == Unit(e.unitId, e.pos, e.playerId, e.typeId)
    ensures forall id :: id in units && !(e.CreateUnit? && id == e.unitId) ==>
      id in GameStateApply(units, e) && GameStateApply(units, e)[id] == units[id]
    ensures !e.CreateUnit? ==> GameStateApply(units, e) == units
  {
  }

  /** The order in which repeated `pop` drains a list: last pushed first. */
  function Reverse<T>(s: seq<T>): (r: seq<T>)
    ensures |r| == |s|
    ensures forall i :: 0 <= i < |s| ==> r[i] == s[|s| - 1 - i]
  {
    if s == [] then [] else Reverse(s[1..]) + [s[0]]
  }

  /** The current player after a sequence of events, in order. */
  function FoldCurrent(players: seq<int>, current: int, evs: seq<CoreEvent>): int
    decreases |evs|
  {
    if evs == [] then current
    else ApplyToCurrent(players, FoldCurrent(players, current, evs[..|evs| - 1]), evs[|evs| - 1])
  }

  /** The units after a sequence of events, in order. */
  function FoldUnits(units: map<int, Unit>, evs: seq<CoreEvent>): map<int, Unit>
    decreases |evs|
  {
    if evs == [] then units
    else GameStateApply(FoldUnits(units, evs[..|evs| - 1]), evs[|evs| - 1])
  }

  /** Every queue of `after` is the queue of `before` with `evs` appended, and no queue was added or removed. */
  predicate Appended(before: map<int, seq<CoreEvent>>, after: map<int, seq<CoreEvent>>, evs: seq<CoreEvent>) {
    after.Keys == before.Keys && forall p :: p in after ==> after[p] == before[p] + evs
  }

  lemma AppendedThen(a: map<int, seq<CoreEvent>>, b: map<int, seq<CoreEvent>>, c: map<int, seq<CoreEvent>>,
                     e1: seq<CoreEvent>, e2: seq<CoreEvent>)
    requires Appended(a, b, e1) && Appended(b, c, e2)
    ensures Appended(a, c, e1 + e2)
  {
    forall p | p in c
      ensures c[p] == a[p] + (e1 + e2)
    {
      assert c[p] == (a[p] + e1) + e2;
    }
  }

  /** The scenario of `get_units`: a tank and a soldier for each of the two players. */
  function InitialEvents(tankId: int, soldierId: int): seq<CoreEvent> {
    [CoreEvent.CreateUnit(0, MapPos(0, 0), tankId, 0),
     CoreEvent.CreateUnit(1, MapPos(0, 1), soldierId, 0),
     CoreEvent.CreateUnit(2, MapPos(2, 0), tankId, 1),
     CoreEvent.CreateUnit(3, MapPos(2, 2), soldierId, 1)]
  }

  /** The units after `add_unit`: one more, under the fresh id. */
  function WithNewUnit(units: map<int, Unit>, pos: MapPos, typeId: int, playerId: int): map<int, Unit> {
    var id := NewUnitId(units.Keys);
    units[id := Unit(id, pos, playerId, typeId)]
  }

  /** `get_units` on an empty world hands out ids 0, 1, 2 and 3, in order. */
  lemma InitialScenario(tankId: int, soldierId: int)
    ensures var u0: map<int, Unit> := map[];
            var u1 := WithNewUnit(u0, MapPos(0, 0), tankId, 0);
            var u2 := WithNewUnit(u1, MapPos(0, 1), soldierId, 0);
            var u3 := WithNewUnit(u2, MapPos(2, 0), tankId, 1);
            NewUnitId(u0.Keys) == 0 && NewUnitId(u1.Keys) == 1 && NewUnitId(u2.Keys) == 2 && NewUnitId(u3.Keys) == 3
            && WithNewUnit(u3, MapPos(2, 2), soldierId, 1) == InitialUnits(tankId, soldierId)
  {
    var u0: map<int, Unit> := map[];
    var u1 := WithNewUnit(u0, MapPos(0, 0), tankId, 0);
    NewUnitIdIncreases(u0, Unit(0, MapPos(0, 0), 0, tankId));
    var u2 := WithNewUnit(u1, MapPos(0, 1), soldierId, 0);
    NewUnitIdIncreases(u1, Unit(1, MapPos(0, 1), 0, soldierId));
    var u3 := WithNewUnit(u2, MapPos(2, 0), tankId, 1);
    NewUnitIdIncreases(u2, Unit(2, MapPos(2, 0), 1, tankId));
  }

  function InitialUnits(tankId: int, soldierId: int): map<int, Unit> {
    map[0 := Unit(0, MapPos(0, 0), 0, tankId),
        1 := Unit(1, MapPos(0, 1), 0, soldierId),
        2 := Unit(2, MapPos(2, 0), 1, tankId),
        3 := Unit(3, MapPos(2, 2), 1, soldierId)]
  }

  /** Draws of `gen_range(-5, 5)`: every one lies in [-5, 5). */
  ghost predicate DrawsInRange(dice: nat -> int) {
    forall k: nat :: -5 <= dice(k) < 5
  }

  /**
    `Core`: the units, the roster, the current player, the working list of
    events, one outgoing queue per player, the type catalog, and the combat
    draws with the position of the next unread one.
   */
  class Core {
    var units: map<int, Unit>
    const players: seq<int>
    var currentPlayerId: int
    var coreEventList: seq<CoreEvent>
    var eventLists: map<int, seq<CoreEvent>>
    const objectTypes: ObjectTypes
    const dice: nat -> int
    var rolls: nat

    ghost predicate Valid()
      reads this, objectTypes
    {
      IsRoster(players)
      && 0 <= currentPlayerId < |players|
      && (forall p :: p in eventLists <==> 0 <= p < |players|)
      && WellFormed(objectTypes.unitTypes, objectTypes.weaponTypes)
      && FindUnitType(objectTypes.unitTypes, "soldier").Some?
      && UnitsWellTyped(units, objectTypes.unitTypes)
      && DrawsInRange(dice)
    }

    /** `Core::new`: two players, player 0 to move, and the four units of `get_units` created and broadcast. */
    constructor (dice: nat -> int)
      requires DrawsInRange(dice)
      ensures Valid()
      ensures players == [0, 1] && currentPlayerId == 0 && coreEventList == []
      ensures this.dice == dice && rolls == 0
      ensures objectTypes.weaponTypes == [Cannon(), Rifle()] && objectTypes.unitTypes == [Tank(0), Soldier(1)]
      ensures units == InitialUnits(0, 1)
      ensures eventLists == map[0 := InitialEvents(0, 1), 1 := InitialEvents(0, 1)]
    {
      this.dice := dice;
      players := [0, 1];
      currentPlayerId := 0;
      coreEventList := [];
      eventLists := map[0 := [], 1 := []];
      objectTypes := new ObjectTypes();
      units := map[];
      rolls := 0;
      new;
      ReferenceLookups();
      assert FindUnitType(objectTypes.unitTypes, "tank") == Some(0);
      GetUnits();
      assert FindUnitType(objectTypes.unitTypes, "soldier") == Some(1);
      assert eventLists.Keys == {0, 1};
      assert eventLists[0] == InitialEvents(0, 1) && eventLists[1] == InitialEvents(0, 1);
    }

    /** `get_units`: adds the scenario's units one by one, each with a fresh id. */
    method GetUnits()
      requires Valid() && coreEventList == [] && units == map[]
      requires FindUnitType(objectTypes.unitTypes, "tank").Some?
      modifies this
      ensures Valid() && coreEventList == []
      ensures currentPlayerId == old(currentPlayerId) && rolls == old(rolls)
      ensures units == InitialUnits(FindUnitType(objectTypes.unitTypes, "tank").value,
                                    FindUnitType(objectTypes.unitTypes, "soldier").value)
      ensures Appended(old(eventLists), eventLists,
                       InitialEvents(FindUnitType(objectTypes.unitTypes, "tank").value,
                                     FindUnitType(objectTypes.unitTypes, "soldier").value))
    {
      var tankId := objectTypes.GetUnitTypeId("tank");
      var soldierId := objectTypes.GetUnitTypeId("soldier");
      ghost var e0 := CoreEvent.CreateUnit(0, MapPos(0, 0), tankId, 0);
      ghost var e1 := CoreEvent.CreateUnit(1, MapPos(0, 1), soldierId, 0);
      ghost var e2 := CoreEvent.CreateUnit(2, MapPos(2, 0), tankId, 1);
      ghost var e3 := CoreEvent.CreateUnit(3, MapPos(2, 2), soldierId, 1);
      ghost var lists0 := eventLists;
      InitialScenario(tankId, soldierId);
      AddUnit(MapPos(0, 0), tankId, 0);
      ghost var lists1 := eventLists;
      AddUnit(MapPos(0, 1), soldierId, 0);
      ghost var lists2 := eventLists;
      AppendedThen(lists0, lists1, lists2, [e0], [e1]);
      AddUnit(MapPos(2, 0), tankId, 1);
      ghost var lists3 := eventLists;
      AppendedThen(lists0, lists2, lists3, [e0] + [e1], [e2]);
      AddUnit(MapPos(2, 2), soldierId, 1);
      AppendedThen(lists0, lists3, eventLists, [e0] + [e1] + [e2], [e3]);
      ConcatFour(e0, e1, e2, e3);
    }

    /** `add_unit`: a `CreateUnit` event with a fresh id, processed at once. */
    method AddUnit(pos: MapPos, typeId: int, playerId: int)
      requires Valid() && coreEventList == [] && 0 <= typeId < |objectTypes.unitTypes|
      modifies this
      ensures Valid() && coreEventList == []
      ensures currentPlayerId == old(currentPlayerId) && rolls == old(rolls)
      ensures units == WithNewUnit(old(units), pos, typeId, playerId)
      ensures Appended(old(eventLists), eventLists, [CoreEvent.CreateUnit(NewUnitId(old(units).Keys), pos, typeId, playerId)])
    {
      var event := CoreEvent.CreateUnit(NewUnitId(units.Keys), pos, typeId, playerId);
      DoCoreEvent(event);
    }

    /** `get_event`: the head of the current player's queue, removed from it; `None` when that queue is empty. */
    method GetEvent() returns (r: Option<CoreEvent>)
      requires Valid()
      modifies this`eventLists
      ensures Valid()
      ensures old(eventLists)[currentPlayerId] == [] ==> r.None? && eventLists == old(eventLists)
      ensures old(eventLists)[currentPlayerId] != [] ==>
        r == Some(old(eventLists)[currentPlayerId][0])
        && eventLists == old(eventLists)[currentPlayerId := old(eventLists)[currentPlayerId][1..]]
    {
      var list := eventLists[currentPlayerId];
      if |list| == 0 {
        r := None;
      } else {
        r := Some(list[0]);
        eventLists := eventLists[currentPlayerId := list[1..]];
      }
    }

    /** `do_command`: translate the command and, unless it was dropped, process the event. */
    method DoCommand(cmd: Command)
      requires Valid() && coreEventList == []
      requires cmd.AttackUnit? ==> cmd.attackerId in units && cmd.defenderId in units
      modifies this
      ensures Valid() && coreEventList == []
      ensures eventLists.Keys == old(eventLists).Keys
      ensures
        var r := CommandToEvent(old(units), players, old(currentPlayerId), objectTypes.unitTypes,
                                objectTypes.weaponTypes, dice, old(rolls), cmd);
        rolls == r.1
        && (r.0.None? ==>
              units == old(units) && currentPlayerId == old(currentPlayerId) && eventLists == old(eventLists))
        && (r.0.Some? ==>
              units == GameStateApply(old(units), r.0.value)
              && currentPlayerId == ApplyToCurrent(players, old(currentPlayerId), r.0.value)
              && forall p :: p in eventLists ==> eventLists[p] == old(eventLists)[p] + [r.0.value])
    {
      var r := CommandToEvent(units, players, currentPlayerId, objectTypes.unitTypes,
                              objectTypes.weaponTypes, dice, rolls, cmd);
      rolls := r.1;
      if r.0.Some? {
        DoCoreEvent(r.0.value);
      }
    }

    /** `do_core_event`: push the event onto the empty working list and drain it. */
    method DoCoreEvent(e: CoreEvent)
      requires Valid() && coreEventList == [] && EventWellTyped(e, objectTypes.unitTypes)
      modifies this
      ensures Valid() && coreEventList == [] && rolls == old(rolls)
      ensures units == GameStateApply(old(units), e)
      ensures currentPlayerId == ApplyToCurrent(players, old(currentPlayerId), e)
      ensures eventLists.Keys == old(eventLists).Keys
      ensures forall p :: p in eventLists ==> eventLists[p] == old(eventLists)[p] + [e]
    {
      coreEventList := coreEventList + [e];
      assert Reverse(coreEventList) == [e];
      ghost var cur0 := currentPlayerId;
      ghost var units0 := units;
      MakeEvents();
      assert [e][..0] == [];
      assert FoldCurrent(players, cur0, [e]) == ApplyToCurrent(players, cur0, e);
      assert FoldUnits(units0, [e]) == GameStateApply(units0, e);
    }

    /** `apply_event`: an `EndTurn` moves the turn if its new id is on the roster and its old id is the current player. */
    method ApplyEvent(event: CoreEvent)
      modifies this`currentPlayerId
      ensures currentPlayerId == ApplyToCurrent(players, old(currentPlayerId), event)
    {
      match event
      case EndTurn(oldId, newId) =>
        var i := 0;
        while i < |players|
          invariant 0 <= i <= |players|
          invariant forall j :: 0 <= j < i ==> players[j] != newId
          invariant currentPlayerId == old(currentPlayerId)
        {
          if players[i] == newId {
            if currentPlayerId == oldId {
              currentPlayerId := players[i];
            }
            return;
          }
          i := i + 1;
        }
      case _ =>
    }

    /** The inner loop of `make_events`: append the event to the queue of every player on the roster. */
    method Broadcast(event: CoreEvent)
      requires Valid()
      modifies this`eventLists
      ensures Valid()
      ensures eventLists.Keys == old(eventLists).Keys
      ensures forall p :: p in eventLists ==> eventLists[p] == old(eventLists)[p] + [event]
    {
      var i := 0;
      while i < |players|
        invariant 0 <= i <= |players|
        invariant eventLists.Keys == old(eventLists).Keys
        invariant forall p :: p in eventLists ==> eventLists[p] == old(eventLists)[p] + (if p < i then [event] else [])
      {
        var id := players[i];
        eventLists := eventLists[id := eventLists[id] + [event]];
        i := i + 1;
      }
    }

    /**
      `make_events`: pop events off the working list until it is empty; each
      one updates the current player, is applied to the world state and is
      appended to every player's queue, so the queues receive the working
      list in reverse.
     */
    method MakeEvents()
      requires Valid()
      requires forall i :: 0 <= i < |coreEventList| ==> EventWellTyped(coreEventList[i], objectTypes.unitTypes)
      modifies this
      ensures Valid() && coreEventList == [] && rolls == old(rolls)
      ensures units == FoldUnits(old(units), Reverse(old(coreEventList)))
      ensures currentPlayerId == FoldCurrent(players, old(currentPlayerId), Reverse(old(coreEventList)))
      ensures eventLists.Keys == old(eventLists).Keys
      ensures forall p :: p in eventLists ==> eventLists[p] == old(eventLists)[p] + Reverse(old(coreEventList))
    {
      ghost var list0 := coreEventList;
      ghost var lists0 := eventLists;
      ghost var cur0 := currentPlayerId;
      ghost var units0 := units;
      while |coreEventList| != 0
        invariant Valid() && rolls == old(rolls)
        invariant |coreEventList| <= |list0| && coreEventList == list0[..|coreEventList|]
        invariant units == FoldUnits(units0, Reverse(list0[|coreEventList|..]))
        invariant currentPlayerId == FoldCurrent(players, cur0, Reverse(list0[|coreEventList|..]))
        invariant eventLists.Keys == lists0.Keys
        invariant Appended(lists0, eventLists, Reverse(list0[|coreEventList|..]))
        decreases |coreEventList|
      {
        ghost var k := |coreEventList|;
        ghost var done := Reverse(list0[k..]);
        ghost var before := eventLists;
        var event := DrainOne();
        AppendedThen(lists0, before, eventLists, done, [event]);
        ReverseStep(list0, k);
        FoldStep(players, cur0, units0, done, event);
        PrefixStep(list0, k);
      }
    }

    /** One turn of the loop of `make_events`: pop the last event, apply it and broadcast it. */
    method DrainOne() returns (event: CoreEvent)
      requires Valid() && |coreEventList| > 0
      requires EventWellTyped(coreEventList[|coreEventList| - 1], objectTypes.unitTypes)
      modifies this
      ensures Valid() && rolls == old(rolls)
      ensures event == old(coreEventList)[|old(coreEventList)| - 1]
      ensures coreEventList == old(coreEventList)[..|old(coreEventList)| - 1]
      ensures units == GameStateApply(old(units), event)
      ensures currentPlayerId == ApplyToCurrent(players, old(currentPlayerId), event)
      ensures eventLists.Keys == old(eventLists).Keys
      ensures forall p :: p in eventLists ==> eventLists[p] == old(eventLists)[p] + [event]
    {
      var k := |coreEventList|;
      event := coreEventList[k - 1];
      coreEventList := coreEventList[..k - 1];
      ApplyEvent(event);
      assert 0 <= currentPlayerId < |players| by {
        if event.EndTurn? && event.newId in players {
          var j :| 0 <= j < |players| && players[j] == event.newId;
        }
      }
      units := GameStateApply(units, event);
      Broadcast(event);
    }
  }

  /** Folding one more event applies it to the result of the fold so far. */
  lemma FoldStep(players: seq<int>, current: int, units: map<int, Unit>, evs: seq<CoreEvent>, e: CoreEvent)
    ensures FoldCurrent(players, current, evs + [e]) == ApplyToCurrent(players, FoldCurrent(players, current, evs), e)
    ensures FoldUnits(units, evs + [e]) == GameStateApply(FoldUnits(units, evs), e)
  {
    assert (evs + [e])[..|evs|] == evs;
  }

  /** Dropping the last element of the prefix `s[..k]` leaves the prefix `s[..k - 1]`. */
  lemma PrefixStep<T>(s: seq<T>, k: int)
    requires 1 <= k <= |s|
    ensures s[..k][..k - 1] == s[..k - 1] && s[..k][k - 1] == s[k - 1]
  {
  }

  lemma ConcatFour<T>(a: T, b: T, c: T, d: T)
    ensures [a] + [b] + [c] + [d] == [a, b, c, d]
  {
  }

  /** One more `pop` puts the next element from the end after those already drained. */
  lemma ReverseStep<T>(s: seq<T>, k: int)
    requires 1 <= k <= |s|
    ensures Reverse(s[k - 1..]) == Reverse(s[k..]) + [s[k - 1]]
  {
    assert s[k - 1..][1..] == s[k..];
  }
}
