# Voxel world: chunks, streaming, broad-phase collision and player input

A Dafny model of the game logic of a small browser voxel engine. The world
is cut into chunks. Each chunk holds a dense `width × height × width` grid
of block records `{id, instanceID}`, filled from noise in three passes:

1. every cell starts empty;
2. resources are placed where their 3-D noise exceeds a scarcity threshold;
3. each column is filled with dirt below a clamped surface height, grass at
   the surface and empty cells above it.

Mesh generation numbers the visible blocks of each kind. A block is
visible when it is not empty and not enclosed on all six faces.

The world keeps the chunks within `drawDistance` of the player's chunk and
creates or drops chunks as the player moves. Block lookups go through
world-to-chunk coordinates. In asynchronous mode a new chunk stays
unloaded until its deferred generation runs. The physics step enumerates
the blocks in the integer box around the player's cylinder and hands them
to a narrow phase that reports nothing. The player is a key-driven state
machine over input axes, velocity, position and a ground flag.

Files and modules:

- `common.dfy` (`Common`): `Option`, `Min`, `Max`, and a ceiling on reals.
- `blocks.dfy` (`Blocks`): the block record, the grid, the block catalog,
  the generation parameters (noise functions included), and single-cell
  grid update.
- `chunk_spec.dfy` (`ChunkSpec`): the functional specification of chunk
  generation. It covers resource choice, column height, terrain profile,
  the obscured test, and the instance-slot numbering together with its
  proofs.
- `world_chunk.dfy` (`Chunks`): the `WorldChunk` class. Its methods update
  the grid and the per-kind counters in place, and each is proved against
  `ChunkSpec`.
- `streaming.dfy` (`Streaming`): world-to-chunk coordinates, the visible
  square, and the "not yet loaded" filter.
- `world.dfy` (`Worlds`): the `World` class with its list of chunks, plus
  the list operations behind adding and removing chunks.
- `player.dfy` (`Players`): the `Player` class.
- `physics.dfy` (`Physics`): the box around the player, the broad phase as
  written and as intended, the narrow phase, and the update step.

## Model

| member | source | states |
|---|---|---|
| Blocks.Put | scripts/worldChunk.js:191-208 | writing one in-bounds cell keeps the grid's shape; that cell gets the new record and every other cell is unchanged |
| ChunkSpec.LastResourceWins | scripts/worldChunk.js:69-86 | a cell ends up with the id of the last resource, in list order, whose noise exceeds its scarcity; if none exceeds, the cell keeps its id |
| ChunkSpec.ClampHeight | scripts/worldChunk.js:105-108 | the height is clamped into [0, height-1]; a height already in range is kept; one below is raised to 0; one above is lowered to height-1 |
| ChunkSpec.ColumnHeight | scripts/worldChunk.js:95-108 | the scaled-noise column height is always a valid row: at least 0, and below the chunk height when that is positive |
| ChunkSpec.TerrainProfile | scripts/worldChunk.js:111-119 | at the surface the cell is grass; above it the cell is empty; below it an empty cell becomes dirt and any other cell keeps its id |
| ChunkSpec.SeamContinuity | scripts/worldChunk.js:75-102 | generation depends only on world coordinates, so two chunks that describe the same world column generate the same ids in it |
| ChunkSpec.ExposedIffOpenFace | scripts/worldChunk.js:242-259 | a block is not obscured exactly when one of its six face neighbours is empty or outside the chunk |
| ChunkSpec.DrawnBeforeNext | scripts/worldChunk.js:146-161 | one inner-loop step adds one to a kind's running slot count exactly when the cell is drawn as that kind |
| ChunkSpec.DrawnBeforeRowEnd | scripts/worldChunk.js:147-148 | the running count at the end of a z-row is the count at the start of the next row |
| ChunkSpec.DrawnBeforeSliceEnd | scripts/worldChunk.js:146-147 | the running count at the end of an x-slice is the count at the start of the next slice |
| ChunkSpec.DrawnBeforeStrict | scripts/worldChunk.js:146-161 | the slot count never decreases in loop order, and a drawn cell's slot is below the slot of every later cell |
| ChunkSpec.SlotsDistinct | scripts/worldChunk.js:153-160 | two different drawn cells of the same kind get different instance slots |
| ChunkSpec.SlotBelowTotal | scripts/worldChunk.js:153-160 | a drawn cell's slot is below the final count of its kind |
| ChunkSpec.SlotsConsecutive | scripts/worldChunk.js:153-160 | every number below a kind's final count is the slot of some drawn cell of that kind, so slots run 0, 1, ... with no gaps |
| ChunkSpec.KindTotalFits | scripts/worldChunk.js:129-137 | a kind never has more instances than the mesh capacity width*height*width |
| ChunkSpec.MeshedSlots | scripts/worldChunk.js:146-164 | after mesh generation each drawn cell has an instance id below its kind's count; the ids within a kind are distinct; every slot below the count is taken |
| ChunkSpec.SlotUsed | scripts/worldChunk.js:153-160 | for any slot below a kind's count, some drawn cell of that kind holds exactly that instance id |
| ChunkSpec.GeneratedGrid | scripts/worldChunk.js:31-38 | the grid the three passes produce has shape width × height × width; each cell holds the generated id and no instance id |
| ChunkSpec.ObscuredByIds | scripts/worldChunk.js:156-159 | writing instance ids changes no id, so the obscured test sees the same answer during the mesh loop as before it |
| Chunks.WorldChunk.constructor | scripts/worldChunk.js:18-26 | a new chunk has the given size, parameters and chunk coordinate, an empty grid and no counters, and is not loaded |
| Chunks.WorldChunk.GetBlock | scripts/worldChunk.js:176-182 | the lookup is absent exactly when the coordinate is out of bounds; otherwise it is the record stored there |
| Chunks.WorldChunk.InBounds | scripts/worldChunk.js:217-225 | a coordinate is in bounds exactly when it lies in the chunk's width × height × width box |
| Chunks.IdOr | scripts/worldChunk.js:242-247 | a missing neighbour reads as the empty id; a present one reads as its own id |
| Chunks.WorldChunk.SetBlock | scripts/worldChunk.js:191-195 | in bounds, only that cell's id changes; out of bounds, nothing changes; the shape is kept |
| Chunks.WorldChunk.SetBlockInstance | scripts/worldChunk.js:204-208 | in bounds, only that cell's instance id changes; out of bounds, nothing changes; the shape is kept |
| Chunks.WorldChunk.IsBlockObscured | scripts/worldChunk.js:234-260 | the result, where a missing neighbour counts as empty, agrees with the specification's obscured test |
| Chunks.WorldChunk.InitializeTerrain | scripts/worldChunk.js:48-64 | the grid becomes width × height × width, and every cell is empty with no instance id |
| Chunks.WorldChunk.GenerateResources | scripts/worldChunk.js:69-86 | every cell's id becomes the result of the last-resource-wins choice at its world coordinate; instance ids are kept |
| Chunks.WorldChunk.ApplyResource | scripts/worldChunk.js:72-84 | one resource's pass gives each cell that resource's id exactly where its noise exceeds the scarcity, and leaves every other cell as it was |
| Chunks.WorldChunk.ResourceRow | scripts/worldChunk.js:74-82 | one z row of a resource's pass applies the resource to that row's cells and leaves later cells untouched |
| Chunks.WorldChunk.GenerateTerrain | scripts/worldChunk.js:90-122 | every cell's id follows the terrain profile of its column's clamped height; the extra top iteration writes nothing |
| Chunks.WorldChunk.FillColumn | scripts/worldChunk.js:111-119 | the y loop of one column gives exactly that column the terrain profile of its surface height; every other column is untouched |
| Chunks.WorldChunk.GenerateMeshes | scripts/worldChunk.js:126-167 | drawn cells get their per-kind slot numbers and every other cell is untouched; each kind's counter equals its number of drawn cells |
| Chunks.WorldChunk.MeshRow | scripts/worldChunk.js:148-162 | one z row continues the numbering: the row's drawn cells get their running slots, later cells are untouched, and the counters reach the start of the next row |
| Chunks.WorldChunk.MeshCell | scripts/worldChunk.js:149-160 | one loop step numbers the cell exactly when it is drawn, with its kind's running count, which then goes up by one; nothing else changes |
| Chunks.WorldChunk.Generate | scripts/worldChunk.js:31-43 | after generation the chunk is loaded, its grid is the generated grid, and the grid is numbered for meshing |
| Streaming.WorldToChunkCoords | scripts/world.js:199-219 | floor division: chunk*width + local == world coordinate with 0 <= local < width, for x and for z; y passes through |
| Streaming.ChunkOf | scripts/world.js:199-203 | the chunk coordinate of a real position is the one whose span [c·width, (c+1)·width) contains it |
| Streaming.ChunkOfInteger | scripts/world.js:81-88 | the player's chunk computed from a real position agrees with the integer conversion at integer positions |
| Streaming.StripFacts | scripts/world.js:91-93 | one z-run holds exactly the pairs of that x within the z range, counts them, and is ascending |
| Streaming.SquareFacts | scripts/world.js:90-94 | the nested loops produce exactly the pairs of the rectangle, side times side of them, in x-major ascending order |
| Streaming.NeighbourhoodFacts | scripts/world.js:78-97 | the visible list is exactly the pairs within drawDistance of the player's chunk on both axes; it has (2d+1)² entries, is x-major and has no duplicates |
| Streaming.Missing | scripts/world.js:105-116 | a pair is kept exactly when it is visible and no loaded chunk has it; the result is no longer than the visible list |
| Streaming.MissingAscending | scripts/world.js:107-115 | filtering keeps the visible order |
| Worlds.FindChunk | scripts/world.js:227-232 | the search fails exactly when no chunk has the coordinate; otherwise it returns the first chunk that has it |
| Worlds.CoordinatesMembers | scripts/world.js:109 | the chunks' `userData` coordinates are exactly the coordinates of the chunks, one per chunk |
| Worlds.RemoveChildFirst | scripts/world.js:136 | removing a chunk takes out its first occurrence and keeps the order of the rest; a chunk that is not a child leaves the list unchanged |
| Worlds.ViewLookupFinds | scripts/world.js:171-185 | reading the snapshot of the chunks finds the same chunk as the search and the same block as the chunk lookup, absent when that chunk is not loaded |
| Worlds.Kept | scripts/world.js:122-139 | the chunks that survive removal are exactly the old chunks whose coordinate is visible |
| Worlds.Dropped | scripts/world.js:124-132 | the chunks chosen for removal are exactly the old chunks whose coordinate is not visible |
| Worlds.RemoveChildWithout | scripts/world.js:134-138 | removing one more chunk from the list gives the list without that chunk as well as the earlier ones |
| Worlds.WithoutDropped | scripts/world.js:122-139 | removing every dropped chunk leaves exactly the kept chunks, in order |
| Worlds.KeptNoDuplicates | scripts/world.js:122-139 | removal never introduces a repeated chunk |
| Worlds.KeptCoordinatesNoDuplicates | scripts/world.js:122-139 | if no coordinate was held twice before removal, none is held twice after it |
| Worlds.CoordinatesKept | scripts/world.js:122-139 | the coordinates left after removal are exactly the old coordinates that are visible |
| Worlds.StreamedCoords | scripts/world.js:63-71 | the kept coordinates followed by the added ones are exactly the visible set, with no repeats when there were none before |
| Worlds.World.constructor | scripts/world.js:34-37 | a new world has the given settings and no chunks |
| Worlds.World.Default | scripts/world.js:9-37 | a world built with the default settings has 32 × 32 chunks, draw distance 1, idle-time loading and terrain noise of scale 30, magnitude 1 and offset 0.2, and no chunks |
| Worlds.World.Generate | scripts/world.js:42-57 | the chunks are replaced by fresh, loaded chunks, one per coordinate of the square of radius drawDistance around (0, 0), in x-major order, each holding the meshed grid generation builds at its coordinate |
| Worlds.World.GenerateColumn | scripts/world.js:46-55 | the z loop appends one fresh, loaded chunk per z in the range, in increasing z, after the chunks already there; each holds the meshed generated grid of its coordinate |
| Worlds.World.Add | scripts/world.js:160 | adding a chunk appends it after the existing chunks and its coordinate after theirs, keeping the world consistent |
| Worlds.World.GetVisibleChunks | scripts/world.js:78-97 | the result is the neighbourhood of the chunk that holds the player's position |
| Worlds.World.GetChunksToAdd | scripts/world.js:105-116 | a pair is added exactly when it is visible and no chunk has it; for an ascending visible list (the neighbourhood, its only input) the result is ascending too |
| Worlds.World.RemoveUnusedChunks | scripts/world.js:122-139 | the chunks become exactly the old chunks whose coordinate is visible, in their old order |
| Worlds.World.GenerateChunk | scripts/world.js:146-162 | a fresh chunk at (x, z) is appended after the old chunks; in synchronous mode it is loaded and holds the meshed generated grid of (x, z); in asynchronous mode it is not yet loaded |
| Worlds.World.RunIdleGeneration | scripts/world.js:154-155 | the deferred generation loads the chunk, which then holds the meshed generated grid of its coordinate, and keeps the world consistent |
| Worlds.World.GenerateChunks | scripts/world.js:68-70 | one fresh chunk is appended per coordinate to add, in order |
| Worlds.World.Update | scripts/world.js:63-71 | afterwards the chunk coordinates are exactly the visible set; there are no repeats if there were none before; the kept chunks come first, then the fresh ones |
| Worlds.World.GetChunk | scripts/world.js:227-232 | a chunk is found exactly when some chunk has the coordinate, and the one found has it |
| Worlds.World.GetBlock | scripts/world.js:171-185 | the block is absent exactly when no chunk has the column, the chunk is not loaded, or y is outside the chunk height; otherwise it is the record at the local coordinates |
| Worlds.LoadedBlocksGenerated | scripts/world.js:171-185 | every block the world returns has the id generation gives that world position: the terrain profile of the column height over the last-resource-wins choice, whichever chunk holds it |
| Worlds.World.BlockView | scripts/world.js:171-185 | the world's blocks as a function of position, built from the chunks' current contents, agree with the world lookup at every coordinate |
| Players.Player.constructor | scripts/player.js:4-22 | a new player is at (32, 16, 32) with zero velocity and input, not on the ground and not locked |
| Players.Player.OnKeyDown | scripts/player.js:87-117 | W/S set input z to ±maxSpeed and A/D set input x to ±maxSpeed; R respawns at (32, 16, 32) at rest; Space adds jumpSpeed and leaves the ground only when on it; input stays in {-maxSpeed, 0, maxSpeed} |
| Players.Player.OnKeyUp | scripts/player.js:123-141 | W/S zero input z and A/D zero input x; other keys and every other field are unchanged; the input invariant is kept |
| Players.Player.ApplyInputs | scripts/player.js:55-65 | unlocked, nothing moves; locked, horizontal velocity takes the input, the player moves along the camera's right and forward directions, and y grows by velocity.y*dt |
| Physics.BoxAround | scripts/physics.js:54-67 | each lower bound is the floor and each upper bound the ceiling of the cylinder's extent; each min <= max when radius and height are non-negative |
| Physics.Passes | scripts/physics.js:75 | as written (compared against an undefined value) every block passes; with the empty id given, exactly the non-empty blocks pass |
| Physics.CandidatesSound | scripts/physics.js:71-80 | for any block lookup, every candidate passes the filter and is the block returned at some integer coordinate of the box |
| Physics.CandidatesComplete | scripts/physics.js:71-80 | for any block lookup, every block returned at a coordinate of the box is a candidate if it passes the filter |
| Physics.CandidatesBound | scripts/physics.js:71-80 | for any block lookup, there are at most as many candidates as cells in the box, the product of its three side lengths |
| Physics.WorldCandidates | scripts/physics.js:71-80 | with the world's own lookup, every candidate passes the filter and is held by the world in the box, and every passing block the world holds in the box is a candidate |
| Physics.AsWrittenKeepsEmpty | scripts/physics.js:75 | as written, an empty block in the box is a candidate |
| Physics.SolidCandidates | scripts/physics.js:75 | with the filter as intended, the candidates are exactly the non-empty blocks of the box |
| Physics.NarrowPhase | scripts/physics.js:42-49 | every collision is one of the candidates, and the stub reports none |
| Physics.Physics.CollectRun | scripts/physics.js:73-78 | the innermost loop pushes the passing blocks of one z-run, in increasing z |
| Physics.Physics.CollectSlice | scripts/physics.js:72-79 | the middle loop pushes the passing blocks of one x-slice, in increasing y then z |
| Physics.Physics.CollectBox | scripts/physics.js:71-80 | the triple loop yields the box's candidates in x, then y, then z order |
| Physics.Physics.BroadPhase | scripts/physics.js:50-85 | as written: every block the world holds in the box around the player, empty ones included |
| Physics.Physics.BroadPhaseSolid | scripts/physics.js:50-85 | as intended: the non-empty blocks in the box around the player |
| Physics.Physics.DetectCollisions | scripts/physics.js:26-33 | with the broad phase as written, the narrow phase reports nothing, so the resolution branch is proved unreachable; neither the player nor the world changes |
| Physics.Physics.Update | scripts/physics.js:16-18 | a physics step only detects collisions, and it changes neither the player nor the world |

## Left out

- Noise and randomness: the two seeded simplex noise generators are function-valued fields of the generation parameters. The seed, the RNG and the noise algorithm are not modelled.
- The block catalog (the empty, grass and dirt ids and the resource list) is a parameter. The file that defines it is not part of this model.
- Worlds.World.constructor: requires a positive chunk width, as does Streaming.WorldToChunkCoords. With width 0 the source divides by zero and gets infinite or NaN chunk coordinates.
- Worlds.World.Default: the constructor's `seed` argument is stored in a field that generation never reads. Generation reads the parameters' seed, which stays 0, so every world gets the same terrain. The model has no seed: the noise functions are parameters.
- Chunks.WorldChunk.Generate: requires non-zero terrain and resource scales. The source would divide by zero there and feed an infinite or NaN coordinate to the noise.
- Chunks.WorldChunk.GenerateMeshes: the source looks up a mesh per block id and would throw on an id outside the catalog. The model keeps its counters in a map that starts every id at 0, so such an id is numbered like any other kind.
- Three.js mesh work (instanced meshes, matrices, adding and clearing scene children) and `disposeInstances` are not modelled. Only the instance-slot numbering is kept.
- Worlds.World.Generate: `disposeChunks` is modelled only as emptying the chunk list.
- `requestIdleCallback`: the deferred generation is the separate step `RunIdleGeneration`. When idle callbacks run, and in what order, is not modelled.
- Players.Player.OnKeyDown: the pointer-lock request on a key press is not modelled. The browser grants the lock later, so `locked` is unchanged by the call.
- Players.Player.ApplyInputs: the camera's horizontal right and forward directions are parameters. The trigonometry of `moveRight`/`moveForward`, `worldVelocity`, `applyWorldDeltaVelocity`, the bounds helper, `toString` and the DOM write are left out.
- Floating point: positions, noise values and scales are exact reals. JavaScript's rounding of doubles before `Math.floor`/`Math.ceil` is not modelled.
- Aliasing: block records are values. In the source, `getBlock` and the broad phase hand out references to the stored records.
- Logging and timing (`console.log`, `performance.now`) are left out.
- The renderer setup and main loop, and the separate demo at the repository root, are not part of this model.

## Findings

| source | as written | input that shows it | evidently intended | confidence | as-written member | corrected member |
|---|---|---|---|---|---|---|
| scripts/physics.js:75 | `block.id` is compared with `block.empty && block.empty.id`; block records have no `empty` field, so the comparison is against undefined and every block passes | any loaded chunk with an empty cell inside the player's box, e.g. the air cell the player's head is in | compare with the catalog's empty id so that only non-empty blocks are candidates | not executed | Physics.AsWrittenKeepsEmpty | Physics.SolidCandidates |
