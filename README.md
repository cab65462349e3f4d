# Hex board and turn engine of a hex-grid tactics game

This project is a Dafny model of the core of a turn-based tactics game played on a hexagonal grid.
It covers two parts.

- **The board** (`core/src/map.rs`):
  - a rectangular `Map<T>` of tiles stored row-major, with in-board tests, tile reads and writes, and construction from a default or a callback;
  - the board iterator `MapPosIter`;
  - the ring iterator that walks the six sides of a hexagonal ring around a centre;
  - the spiral iterator that chains the rings of radius 1 up to a maximum;
  - the `distance` function.
- **The engine** (`src/core/core.rs`):
  - the type catalog `ObjectTypes`;
  - the translation of player `Command`s into `CoreEvent`s, including the three-test combat resolution of `hit_test`;
  - the rotation of turns between players;
  - fresh unit ids;
  - the working event list, drained with `pop`;
  - the per-player event queues, read FIFO by `get_event`.

Files:

- `wrappers.dfy`: `Option`.
- `hexdir.dfy` (module `HexDir`): positions, the six directions in iteration order (south-east first), the neighbour table and axial coordinates.
- `hexmap.dfy` (module `HexMap`): board sizes, row-major indexing, the enumeration order of the board, `MapPosIter`, the stateful callback of `from_callback`, `Map<T>` and `distance`.
- `hexring.dfy` (module `HexRing`): reference definitions of a ring and of a spiral, the classes `RingIter` and `SpiralIter`, and the ring geometry. The geometry covers: exactly `6n` cells, every cell at hex distance `n`, no duplicates, the walk closing on its start, and the literal rings of the tests.
- `catalog.dfy` (module `Catalog`): unit and weapon types, and lookup by name.
- `engine.dfy` (module `Engine`): commands, events, the combat draws, and the class `Core`.

Each iterator is a class whose ghost function `Remaining()` is the sequence it has still to yield.
The constructor fixes `Remaining()` to a reference definition: `AllPositions`, `Ring` or `Rings`. The one exception is a `RingIter` of radius 0: its constructor states only that five cells remain (`RingIterRadiusZero` gives them).
The ring and spiral `Next()` are proved to return the head of that sequence and leave its tail.
The board iterator also counts the cells it has yielded (`Yielded()`), with `Remaining()` the rest of `AllPositions` after that count; its `Next()` is stated through the count.
The properties of the iterators are then lemmas about those definitions.

The callback of `from_callback` is a `&mut FnMut(MapPos) -> T`: it may keep state and change it on every call.
The model makes that state explicit: `cb(s, p)` returns the callback's new state and the tile for cell `p`.
`StateAfter(cb, s0, ps, k)` is the state after the first `k` calls; `CollectTiles` and `Map.FromCallback` thread the state through one call per cell in row-major order and return it.

The random source `thread_rng().gen_range(-5, 5)` is replaced by a function `dice: nat -> int` given to the `Core` constructor, with a cursor `rolls` for the next unread draw.
The only assumption about the draws is that each lies in `[-5, 5)`.

Three behaviours of the code are easy to misread; the model follows the code:

- The working event list is a stack: `make_events` pops the last event pushed. `MakeEvents` states the drain order as `Reverse` of the list. `DoCoreEvent` pushes onto an empty list, so for a single event the two orders agree.
- `distance` uses Rust's `/ 2`, which truncates toward zero, on the row coordinate. `TruncDiv2` models this. Rows `y < 0` are therefore shifted differently from the neighbour table's axial coordinates. So `distance` is the hex metric only when both rows are `>= 0` (`DistanceIsHexDistanceOnBoard`). `DistanceTruncatesBelowRowZero` gives the pair `(0,0)`/`(-1,-1)`: their distance is 1, while they are two steps apart. The ring is exact in the hex metric (`RingAtHexDistance`). It agrees with `distance` where the rows are non-negative (`RingAtDistanceOnBoard`).
- `ring_iter` with radius 0 is not rejected: it yields five cells (`RingIterRadiusZero`).

## Model

| member | source | states |
|---|---|---|
| HexDir.NeighbourShift | core/src/map.rs:142-154 | one step to a neighbour in direction `d` is the constant axial offset of `d`, whatever the row parity |
| HexMap.DefaultTerrain | core/src/map.rs:19-21 | `Terrain::default()` is `Plain`, the tile `Map::new` fills a terrain board with |
| HexMap.NewTerrainMap | core/src/map.rs:30-37 | `Map::<Terrain>::new` gives a valid board of the requested size whose every in-board tile is `Plain` |
| HexMap.Inboard | core/src/map.rs:71-76 | a cell is on the board when `0 <= x < w` and `0 <= y < h`; `InboardIffEnumerated` ties it to the board iterator |
| HexMap.Index | core/src/map.rs:57-69 | the row-major tile index of an in-board cell lies in `[0, w*h)` |
| HexMap.IndexMonotone | core/src/map.rs:57-69 | row-major order on cells is strictly increasing in the tile index |
| HexMap.IndexInjective | core/src/map.rs:57-69 | two in-board cells with the same tile index are the same cell |
| HexMap.Row | core/src/map.rs:101-113 | one row of the board has `w` cells |
| HexMap.RowsFrom | core/src/map.rs:101-113 | the rows from `y` to the top hold `w*(h-y)` cells |
| HexMap.AllPositions | core/src/map.rs:101-113 | the enumeration of the board holds exactly `w*h` cells |
| HexMap.RowsFromAt | core/src/map.rs:101-113 | the `i`-th cell from row `y` on is in board, with tile index `w*y + i` |
| HexMap.AllPositionsAt | core/src/map.rs:101-113 | the `i`-th enumerated cell is in board and stored at tile index `i` |
| HexMap.AllPositionsIndex | core/src/map.rs:101-113 | every in-board cell is enumerated, at the position of its tile index |
| HexMap.AllPositionsRowMajor | core/src/map.rs:101-113 | the enumeration is strictly row-major: earlier rows first, then smaller `x` |
| HexMap.InboardIffEnumerated | core/src/map.rs:71-76 | a cell is in board if and only if the board iterator yields it |
| HexMap.MapPosIter.Yielded | core/src/map.rs:101-113 | the number of cells the iterator has yielded never exceeds the `w*h` cells of the board |
| HexMap.MapPosIter.constructor | core/src/map.rs:90-95 | a fresh board iterator has yielded nothing and has the whole row-major enumeration still to yield |
| HexMap.MapPosIter.Next | core/src/map.rs:101-113 | yields the enumerated cell at the count of cells already yielded and counts it; once all `w*h` cells are out it returns `None` and stays exhausted |
| HexMap.StatelessCallback | core/src/map.rs:42-49 | a callback that keeps no state is called in the initial state every time, so every tile is a plain function of its cell |
| HexMap.CallOnce | core/src/map.rs:46 | one call of the callback on the next cell, made in the state the earlier calls left; its tile is pushed and its new state kept |
| HexMap.CollectTiles | core/src/map.rs:42-49 | the loop calls the callback once per cell of the board in row-major order, each call in the state the earlier calls left: `w*h` tiles, the `i`-th from the `i`-th call, and the state after all calls |
| HexMap.Map.constructor | core/src/map.rs:30-37 | `Map::new` fills every in-board tile with the default value |
| HexMap.Map.OfTiles | core/src/map.rs:48 | the struct literal `Map{tiles, size}` is a board with exactly that size and those `w*h` tiles |
| HexMap.Map.FromCallback | core/src/map.rs:42-49 | a fresh board whose `i`-th tile is the callback's `i`-th call in row-major order; the tile at each in-board cell is the call made at that cell, in the state the earlier calls left; the callback's final state is returned |
| HexMap.Map.Tile | core/src/map.rs:64-69 | reads the tile at row-major index `w*y + x`; an off-board cell is a precondition, as the source's `assert!` panics |
| HexMap.Map.SetTile | core/src/map.rs:57-62 | writing through `tile_mut` changes the tile at `pos` and no other tile |
| HexMap.Map.GetIter | core/src/map.rs:78-80 | the iterator of a map enumerates exactly that map's board |
| HexMap.TruncDiv2 | core/src/map.rs:216-217 | halving rounds toward zero: the remainder `a - 2r` is at most 1 in magnitude and has the sign of `a` |
| HexMap.TruncDiv2IsNotFloor | core/src/map.rs:217 | truncating and flooring differ: `-1` halves to `0` in the source and to `-1` with Euclidean division |
| HexMap.Distance | core/src/map.rs:214-220 | the distance is never negative |
| HexMap.DistanceNumeratorEven | core/src/map.rs:216-219 | the numerator `abs(dx)+abs(dy)+abs(dx-dy)` is always even, so the final halving loses nothing |
| HexMap.DistanceToSelf | core/src/map.rs:214-220 | the distance from a cell to itself is 0 |
| HexMap.DistanceSymmetric | core/src/map.rs:214-220 | the distance is symmetric |
| HexMap.DistanceIsHexDistanceOnBoard | core/src/map.rs:214-220 | with both rows `>= 0`, `distance` equals the hex metric of the neighbour table |
| HexMap.DistanceTruncatesBelowRowZero | core/src/map.rs:217 | below row 0 the truncating halving makes `distance` differ from the hex metric: `(0,0)`/`(-1,-1)` gives 1 against 2 |
| HexDir.Neighbour | core/src/map.rs:143 | `get_neighbour_pos`: the neighbour table by row parity; `NeighbourShift` states its meaning as constant axial offsets |
| HexRing.Walk | core/src/map.rs:142-147 | `m` simple steps in one direction visit `m` cells |
| HexRing.Walks | core/src/map.rs:160-173 | the sides `i..5` of a ring of radius `n` hold `(6-i)*n` cells |
| HexRing.Steps | core/src/map.rs:160-173 | what `RingIter::next` yields from a given state: simple step inside a side, rotate at its end while directions remain, one last step, then nothing; `StepsAreWalks` gives its meaning |
| HexRing.StepsAreWalks | core/src/map.rs:160-173 | the state machine of `RingIter::next` (simple step, or rotate at the end of a side, until the direction iterator runs out) yields the remaining sides of the ring |
| HexRing.RingIterYieldsRing | core/src/map.rs:125-173 | from its start cell (`radius` cells west of the centre) the ring iterator yields exactly `Ring(c, n)` |
| HexRing.RingIterRadiusZero | core/src/map.rs:125-173 | with radius 0 the ring iterator yields five cells |
| HexRing.RingLength | core/src/map.rs:125-173 | a ring of radius `n` has exactly `6n` cells |
| HexRing.WalkLast | core/src/map.rs:142-147 | the last cell of a walk is its end cell |
| HexRing.WalksLast | core/src/map.rs:160-173 | the last cell yielded by the remaining sides is their end cell |
| HexRing.WalkEndShift | core/src/map.rs:142-147 | `m` steps in direction `d` move the cell by `m` times the axial offset of `d` |
| HexRing.RingWalksClose | core/src/map.rs:160-173 | the six sides of length `n` bring the cursor back to the cell they started from |
| HexRing.RingCloses | core/src/map.rs:125-173 | the last cell of the ring is its start cell, so the ring is closed and not repeated |
| HexRing.WalkAt | core/src/map.rs:142-147 | the `j`-th cell of a walk is `j+1` axial offsets from its start |
| HexRing.PlacedWalks | core/src/map.rs:160-173 | every cell of the remaining sides lies at hex distance `n` from the centre, at the ring index it is yielded at |
| HexRing.RingPlaced | core/src/map.rs:125-173 | the `k`-th cell of the ring is at hex distance `n` from the centre and has ring index `k` |
| HexRing.RingAtHexDistance | core/src/map.rs:125-173 | every cell of a ring of radius `n` is at hex distance exactly `n` from the centre |
| HexRing.RingNoDuplicates | core/src/map.rs:125-173 | a ring never yields the same cell twice |
| HexRing.RingAtDistanceOnBoard | core/src/map.rs:125-173 | where the centre and the cell have rows `>= 0`, every ring cell is at `distance` `n` |
| HexRing.RingsLength | core/src/map.rs:184-211 | the rings of radii `a..b` hold `3*(b(b+1) - (a-1)a)` cells |
| HexRing.SpiralLength | core/src/map.rs:184-211 | a spiral of radius `r` yields `3r(r+1)` cells |
| HexRing.RingOneEvenRow | core/src/map.rs:228-240 | around any centre on an even row, the ring of radius 1 is the six listed neighbours in the tested order |
| HexRing.RingOneLiteral | core/src/map.rs:228-240 | the ring of radius 1 around `(0,0)` is `(0,-1), (1,-1), (1,0), (1,1), (0,1), (-1,0)` |
| HexRing.RingTwoEvenRow | core/src/map.rs:243-267 | around any centre on an even row, the ring of radius 2 is the twelve cells of the test, in order |
| HexRing.RingTwoLiteral | core/src/map.rs:243-267 | the ring of radius 2 around `(0,0)` is the twelve literal cells of the test |
| HexRing.SpiralTwoEvenRow | core/src/map.rs:270-302 | around an even-row centre, the spiral of radius 2 is the radius-1 ring followed by the radius-2 ring: 18 cells |
| HexRing.SpiralTwoLiteral | core/src/map.rs:270-302 | the spiral of radius 2 around `(0,0)` is the 18 literal cells of the test |
| HexRing.RingIter.constructor | core/src/map.rs:125-139 | a new ring iterator has all of `Ring(pos, radius)` to yield; with radius 0, five cells |
| HexRing.RingIter.NextDir | core/src/map.rs:160-173 | the direction iterator hands out the six directions in order, then `None` for good |
| HexRing.RingIter.SimpleStep | core/src/map.rs:142-147 | the cursor moves one cell in the current direction and the side counter goes up by one |
| HexRing.RingIter.Rotate | core/src/map.rs:149-154 | the cursor steps once in the old direction, the side counter restarts, and the new direction is taken |
| HexRing.RingIter.Next | core/src/map.rs:160-173 | yields the head of the remaining ring and drops it; `None` when the ring is done |
| HexRing.RingsStep | core/src/map.rs:197-211 | the spiral from radius `k` starts with the ring of radius `k` and goes on with the spiral from `k+1` |
| HexRing.SpiralIter.constructor | core/src/map.rs:184-192 | a new spiral iterator has all rings of radius 1 to `radius` to yield |
| HexRing.SpiralIter.Next | core/src/map.rs:197-211 | yields the head of the remaining spiral and drops it, moving to the next ring when one is done; `None` after the last ring |
| HexRing.SpiralIter.NextInRing | core/src/map.rs:198-201 | the current ring's next cell is the spiral's next cell; `None` only when the ring is exhausted and just the larger rings remain |
| HexRing.SpiralIter.Advance | core/src/map.rs:202-209 | at an exhausted ring the radius goes up; past the last radius it yields `None` with nothing left, otherwise the first cell of the rings still to come |
| HexRing.SpiralIter.StartRing | core/src/map.rs:204-207 | at an exhausted ring, a fresh ring iterator for the new radius yields the first cell of the remaining spiral |
| Catalog.FindByName | src/core/core.rs:140-147 | the found index is the first entry with that name; `None` exactly when no entry has it |
| Catalog.FindUnitType | src/core/core.rs:140-147 | the lookup of a unit type by name, as `FindByName` on the unit table |
| Catalog.FindWeaponType | src/core/core.rs:160-167 | the lookup of a weapon type by name, as `FindByName` on the weapon table |
| Catalog.ReferenceLookups | src/core/core.rs:95-138 | in the catalog as built, the cannon, the rifle, the tank and the soldier are found at the indices they were pushed to |
| Catalog.ObjectTypes.constructor | src/core/core.rs:84-92 | the catalog is the cannon and the rifle, then the tank armed with the cannon and the soldier armed with the rifle |
| Catalog.ObjectTypes.GetWeaponTypes | src/core/core.rs:95-110 | appends the cannon and the rifle with their constants |
| Catalog.ObjectTypes.GetUnitTypes | src/core/core.rs:113-138 | appends the tank and the soldier, each carrying the index of its weapon found by name |
| Catalog.ObjectTypes.GetUnitTypeIdOpt | src/core/core.rs:140-147 | the scan returns the first unit type with that name, or `None` |
| Catalog.ObjectTypes.GetUnitType | src/core/core.rs:149-151 | the unit type at a table index; an index outside the table is a precondition, as the source's indexing panics |
| Catalog.ObjectTypes.GetUnitTypeId | src/core/core.rs:153-158 | returns the index of the first unit type with that name |
| Catalog.ObjectTypes.GetWeaponTypeId | src/core/core.rs:160-167 | the scan returns the index of the first weapon type with that name |
| Engine.MaxExists | src/core/core.rs:226-233 | a non-empty finite set of ids has a maximum |
| Engine.NewUnitId | src/core/core.rs:226-233 | a new id is 0 on an empty game; otherwise one more than an existing id, and above every existing id |
| Engine.NewUnitIdIncreases | src/core/core.rs:226-243 | after a unit is added under the new id, the next new id is one larger |
| Engine.NextPlayer | src/core/core.rs:336-348 | the next player is the current one plus one, wrapping to 0 after the last |
| Engine.TurnAfterRotates | src/core/core.rs:336-348 | `k` turn ends from player `p` reach player `(p+k) mod count` |
| Engine.FullRoundReturns | src/core/core.rs:336-348 | after one turn end per player the turn is back with the player who started |
| Engine.ApplyToCurrent | src/core/core.rs:377-391 | an `EndTurn` takes effect only when its new id is a player and the current player is its old id; other events leave the current player alone |
| Engine.WeaponOf | src/core/core.rs:272-274 | the attacker's weapon is the weapon table's entry named by its unit type's `weapon_type_id` (also core.rs:320-321); the weapon is in the table |
| Engine.InRange | src/core/core.rs:275 | the attack reaches when the `distance` between the two units is at most the weapon's `max_distance` (also core.rs:322); `HitTest` and `CommandAttackUnitToEvent` branch on it |
| Engine.AttackThresholds | src/core/core.rs:278-281 | the hit, pierce and wound thresholds from the defender's size, armour and toughness, the weapon's accuracy, penetration and damage, and the attacker's skill |
| Engine.Kills | src/core/core.rs:285-297 | a kill is three successive draws, each strictly below its threshold |
| Engine.ThreeTests | src/core/core.rs:262-298 | a kill needs three successive draws each below its threshold; the first failing test stops the chain, and exactly the draws read are consumed |
| Engine.HitTest | src/core/core.rs:262-298 | outside the weapon's range it is not a kill and reads no draw; in range it kills exactly when the hit, pierce and wound tests pass, and its result, draw cursor included, is that of `ThreeTests`, which stops at the first failed test |
| Engine.RifleNeverKillsTank | src/core/core.rs:262-298 | with every draw in `[-5, 5)`, a soldier's rifle never kills a tank: its pierce threshold is `-5` |
| Engine.CannonKillsSoldierOnHit | src/core/core.rs:262-298 | with every draw in `[-5, 5)`, a tank's cannon in range kills a soldier exactly when the hit draw is below `-1` |
| Engine.CommandAttackUnitToEvent | src/core/core.rs:313-332 | an attack yields an event if and only if the target is in range, with the kill decided by the tests; out of range nothing is produced or drawn; in range the event's kill and the draw cursor are those of `HitTest` |
| Engine.CommandToEvent | src/core/core.rs:334-364 | `EndTurn` hands over to the next player; `CreateUnit` makes a soldier of the current player under the id `NewUnitId` of the existing ids, which is above every one of them; `Move` passes through; `AttackUnit` is the attack translation; only an attack can be dropped |
| Engine.EndTurnAdvances | src/core/core.rs:336-348 | on a roster of players `0..count-1`, the event an `EndTurn` command produces passes the turn to `(current+1) mod count` |
| Engine.GameStateApply | src/core/core.rs:397 | the world state's reaction to an event, as far as it is modelled: `CreateUnit` inserts its unit |
| Engine.GameStateApplyFrame | src/core/core.rs:397 | `CreateUnit` adds exactly its unit under its id; every other unit, and every other kind of event, leaves the units unchanged |
| Engine.Reverse | src/core/core.rs:393-404 | the pop order of the working list: its `i`-th event is the `i`-th from the end |
| Engine.InitialScenario | src/core/core.rs:215-224 | the four `CreateUnit` events of the scenario, applied in turn, produce units 0 to 3 at their positions and owners |
| Engine.Core.constructor | src/core/core.rs:195-208 | a new engine has players 0 and 1, player 0 to move, the reference catalog, the four scenario units, and their four creation events queued for each player |
| Engine.Core.GetUnits | src/core/core.rs:215-224 | adds the tank and the soldier of each player with ids 0 to 3, broadcasting one `CreateUnit` each, in that order |
| Engine.Core.AddUnit | src/core/core.rs:235-243 | inserts a unit under the next fresh id and broadcasts its `CreateUnit` event |
| Engine.Core.GetEvent | src/core/core.rs:304-311 | hands the current player the oldest queued event and removes it; `None` and no change when the queue is empty |
| Engine.Core.DoCommand | src/core/core.rs:366-370 | a dropped command changes nothing, not even the draw cursor, since an attack out of range reads no draw; otherwise its event updates units and turn and is queued for every player |
| Engine.Core.DoCoreEvent | src/core/core.rs:372-375 | an event is applied to the units and the turn and appended to every player's queue |
| Engine.Core.ApplyEvent | src/core/core.rs:377-391 | the roster scan changes the current player exactly as `ApplyToCurrent` says |
| Engine.Core.Broadcast | src/core/core.rs:398-402 | the event is appended to every player's queue and nothing else changes |
| Engine.Core.MakeEvents | src/core/core.rs:393-404 | drains the working list last-in first-out: units and turn are the fold of the reversed list, and every queue gains the reversed list |
| Engine.Core.DrainOne | src/core/core.rs:394-402 | one pass pops the last event, applies it and broadcasts it |

## Left out

- `GameState` is not part of this model. Only the insertion of a unit on `CreateUnit` is modelled (`GameStateApply`); `Move` and `AttackUnit` leave the unit map unchanged in the model.
- `Unit` keeps only its id, position, owner and type. Move points and attack flags belong to `GameState`, which is not part of this model.
- `hit_test`'s `println!`/`print!` tracing is output only and is left out.
- CollectTiles and Map.FromCallback: the callback's own state is a value threaded through the calls in row-major order. What the callback does beyond that state is not modelled: output, or changes to other objects it holds references to.
- `thread_rng` is replaced by the injected draws `dice` with the cursor `rolls`. That each draw lies in `[-5, 5)` is a precondition of the constructor, not a proof about a generator. `RifleNeverKillsTank` and `CannonKillsSoldierOnHit` show what that assumption implies for the reference units.
- The pathfinder and the contents of `MapPath` are not part of this model; a path is an opaque sequence of positions.
- `dir.rs` is not part of this model. The neighbour table and the order of the direction iterator are reconstructed so that both literal rings of the tests come out. The direction iterator is assumed to return `None` after its six directions.
- Panics become preconditions: an unknown type name (`GetUnitTypeId`, `GetWeaponTypeId`, `GetUnitTypes`), an off-board tile (`Map.Tile`, `Map.SetTile`), a missing unit id (`CommandToEvent`, `CommandAttackUnitToEvent`, `DoCommand`), a missing player queue (`GetEvent` through `Valid`), a unit type index outside the table (`ObjectTypes.GetUnitType`), and a spiral radius below 1 (`SpiralIter.constructor` requires `radius >= 1`, the `assert!` of map.rs:185).
- HexRing.RingIter.constructor: requires `radius >= 0`. With a negative radius the segment index can never equal `radius`, so after five rotations `RingIter::next` keeps stepping and never returns `None`. That infinite sequence is not modelled.
- Integer width: `ZInt`/`i32` overflow is not modelled; coordinates, ids and thresholds are unbounded integers.
- `ValidSize` requires a positive width and height; other sizes are not modelled. The source accepts them, with odd results. With `w <= 0` and `h > 0`, `MapPosIter::next` yields `(0,0) … (0,h-1)`, which are `h` off-board cells, because the cursor wraps to the next row after every step. With `w == 0` and `h > 0`, `from_callback` therefore builds `h` tiles for a board of 0 cells. With `w*h < 0`, the `as usize` casts in both `Map::new` (map.rs:31) and `from_callback` (map.rs:43) wrap around to a huge tile count, and the allocation panics before any tile is built.
- `make_events` walks the roster `players` in order and looks up each player's queue in the `event_lists` map; a queue missing for a roster player would be a panic, which `Valid` rules out (every roster player has a queue). Every queue gets the same event, so the order of the walk changes nothing in the result. A `Player` is reduced to its id, and a roster `[0, 1, ...]` (`IsRoster`) holds players by index.
- `get_event_lists` and `get_players_list` are folded into `Engine.Core.constructor`.
- The plain accessors are left out: `Map::size`, `Core::object_types`, `Core::player_id`, and `Core::get_unit`. The unit type and weapon type lookups of `hit_test` and `command_attack_unit_to_event` (`get_unit_type`, `Core::get_weapon_type`) are folded into `WeaponOf` and into indexing `unitTypes`. `Map::tile` is the function `Map.Tile`; its meaning is stated by `Map.SetTile` and by the three builders `Map.constructor`, `Map.OfTiles` and `Map.FromCallback`.
- Engine.Core.MakeEvents: the world-state part of each step is only `GameStateApply` (see above).
