# Falling-rocks grid engine, modelled in Dafny

This project models the simulation core of the five-lines-walkthrough puzzle game
(`index.ts`). A player walks on a rectangular grid of tiles. The grid holds walls
(`Unbreakable`), decorative `Flux`, Stones and Boxes that fall under gravity, and
keys that unlock every lock of their colour.

The model covers:

- **Tiles** (`tiles.dfy`). The tile class hierarchy is one datatype. The
  `FallStrategy` object of a Stone/Box is reduced to its `Falling`/`Resting` state,
  and a `KeyConfiguration` to its key id. `isAir`, `fits` and `getBlockOnTopState`
  become predicates and functions on that datatype.
- **The grid** (`tilemap.dfy`). This is `Map`'s cell replacement and `Map.remove`
  (a grid-wide lock removal). It also has the border shape that keeps every index
  in range, and tile counts.
- **Gravity** (`gravity.dfy`). `FallStrategy.update` with `Map.getBlockOnTopState`
  and `Map.drop` is one Stone/Box step, and `Map.update` is the bottom-up sweep. The
  sweep is proved equal to a closed-form reference that says, per cell, what one
  tick leaves there.
- **Movement** (`movement.dfy`):
  - the player (`move`, `moveToTile`, `pushHorizontal`);
  - `Map.movePlayer`, `moveHorizontal`, `moveVertical` and `pushHorizontal`;
  - every tile's `moveHorizontal`/`moveVertical` handler;
  - the four `Input`s.

  The grid and the player's coordinates form one immutable `World`. Each command
  returns the next `World`.
- **The tick** (`engine.dfy`). `handleInputs` drains the command queue with `pop`,
  then `update` runs one gravity sweep.
- **Level construction** (`level.dfy`). `Map.FromTiles` through `Map.transformTile`,
  plus the level the game ships with.

The move handlers and the sweep index the grid without checking bounds. The model
therefore requires a *walled* level: rectangular, with `Unbreakable` border cells,
and the player strictly inside. That is what the shipped level is. The invariant
`Inv` adds that the player's coordinates name the only `PlayerTile` cell. Every
command and every tick keeps `Inv`.

## Model

| member | source | states |
|---|---|---|
| Gravity.UpdateTile | index.ts:35-38 | One Stone/Box step: above Air, the tile drops one row as Falling and leaves Air. Otherwise it stays, now Resting. Every other cell is unchanged, and any tile other than a Stone/Box leaves the grid as it was. |
| Gravity.GravityMatchesReference | index.ts:361-367 | The bottom-up, left-to-right sweep leaves in every cell what the per-cell reference says. A Stone/Box drops one row when the cell below is Air or empties in the same sweep; otherwise it settles as Resting. |
| Gravity.SweepKeepsFixedTiles | index.ts:361-367 | A sweep never changes a cell holding a wall, Flux, the player, a key or a lock, and never creates such a tile. |
| Gravity.SweepMovesAtMostOneRow | index.ts:361-367 | Each Stone/Box either stays as Resting or lands exactly one row lower as Falling. Every Stone/Box after the sweep comes from its own cell or the cell above. |
| Gravity.SweepConservesRocks | index.ts:361-367 | A sweep keeps the number of Stones and the number of Boxes. |
| Gravity.SweepKeepsWalled | index.ts:361-367 | A sweep of a walled level is defined (every Stone/Box has a cell below it) and the level stays walled. |
| TileMap.Remove | index.ts:351-359 | Removal turns every lock whose id fits into Air and leaves all other cells, keys included, as they were. The grid keeps its shape. |
| TileMap.RemoveIdempotent | index.ts:351-359 | After a removal no fitting lock is left, and a cell changed exactly when it held a fitting lock. Removing the same id again changes nothing. |
| TileMap.CountReplace | index.ts:377-380 | Writing one cell changes a rock count by exactly the tile that left and the tile that arrived. |
| Movement.MoveToTileRelocates | index.ts:377-380 | Moving the player leaves Air in the old cell and PlayerTile in the new one. No other cell changes. |
| Movement.WalkOntoFree | index.ts:104-123 | Moving onto Air or Flux moves the player by the input's delta and relocates its tile there. The old cell becomes Air and nothing else changes. |
| Movement.PushRule | index.ts:390-396 | A horizontal move into a Resting Stone/Box succeeds iff the cell beyond is Air and the cell under the pushed tile is not. On success the tile lands beyond and the player takes its cell; otherwise grid and player are unchanged. |
| Movement.BlockedMoves | index.ts:131-145 | Walls, the player's own tile and locks ignore every move. A Stone/Box ignores vertical moves, and horizontal ones while Falling. Such a command leaves the world unchanged. |
| Movement.MovesIffEnters | index.ts:298-315 | A command moves the player iff it enters Air, Flux or a key, or pushes successfully. A command that does not move the player changes nothing at all. |
| Movement.KeyUnlocks | index.ts:217-225 | Stepping onto a key removes every lock with its id anywhere on the grid and moves the player onto the key. Nothing else changes, and removing that id again is a no-op. |
| Movement.HandleKeepsInv | index.ts:377-396 | Every command keeps the player on the one PlayerTile cell inside a walled level. Walls stay where they are, and the Stone and Box counts are unchanged. |
| Engine.HandleInputsIsLifo | index.ts:432-437 | Draining the queue handles the commands newest first, the same as applying the reversed queue in order. |
| Engine.HandleInputsKeeps | index.ts:432-437 | Draining any queue keeps the invariant, the walls and the rock counts. |
| Engine.SweepKeeps | index.ts:361-367 | The gravity sweep keeps the invariant, the walls and the rock counts. |
| Engine.TickOrder | index.ts:427-430 | A tick applies all queued commands first, newest first, then exactly one gravity sweep, and leaves the queue empty. |
| Engine.TickKeeps | index.ts:427-430 | A tick keeps the invariant, the walls and the Stone and Box counts. |
| Level.TransformTile | index.ts:333-349 | A code builds a tile iff it is one of the twelve `RawTile` values. STONE starts Falling, FALLING_STONE Resting, BOX Resting and FALLING_BOX Falling. KEY1 and LOCK1 carry the yellow key's id, KEY2 and LOCK2 the other key's id. |
| Level.RawCode | index.ts:55-64 | Every tile a level can describe has a `RawTile` code that decodes back to it. |
| Level.CodeRoundTrip | index.ts:333-349 | Decoding is injective: encoding a decoded tile gives the original code. |
| Level.FromTiles | index.ts:321-331 | A level builds iff every code is valid. The grid then has the level's shape, and each cell is the tile of its code. |
| Level.SampleLevelBuilds | index.ts:408-415 | The shipped level decodes to the expected grid. |
| Level.SampleLevelStarts | index.ts:463-466 | The shipped level builds into a walled grid whose only PlayerTile is at (1, 1), where the game places the player. |

## Left out

- Drawing: `draw`, the colours, `TILE_SIZE` and `createGraphics`. They only read the state.
- `gameLoop`, `FPS`, `SLEEP` and `setTimeout` scheduling. The model has no clock: `Engine.Tick` is one call of the top-level `update`.
- The `keydown` listener that pushes `Input`s. The queue is a parameter (`Game.inputs`).
- The `TILE_CREATORS` table (index.ts:66-80). It is never used and numbers the tiles differently from `RawTile`. Level codes follow `RawTile` and `transformTile`, as the game does.
- `assertExhausted`, which throws on an unknown code. It becomes `None` from `Level.TransformTile` and `Level.FromTiles`.
- Object identity. Tiles are values, so a pushed or dropped tile is the same value in its new cell. The shared `KeyConfiguration` objects are their ids, 1 and 2, and a key's colour is not modelled.
- The queue order. `handleInputs` pops the newest command first. The model keeps that order (`Engine.HandleInputsIsLifo`) rather than processing commands in arrival order.
- Movement.Handle, Engine.HandleInputs and Engine.Tick: they require a walled level with the player strictly inside. On a level without a wall border, the game can index past the grid and throw: a move toward the edge, or a Stone/Box in the bottom row, calls a method on `undefined`. The model requires the border instead and does not model that failure.
- Gravity.Update: it requires every Stone/Box to have a row below it. A Stone/Box in the bottom row would make `getBlockOnTopState` read past the grid, which is not modelled.
- Movement.HandleKeepsInv: it is stated only for worlds where the player's coordinates name the only `PlayerTile` cell. A level with a second PlayerTile code still runs in the model, but no invariant is claimed for it.
