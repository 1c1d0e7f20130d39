# Terrain and scatter render caches, modelled in Dafny

This project models the integer and decision logic of two Unity render
components of the Terrain2021 project:

- `TerrainRender` covers a square world of `cellCount` cells with a grid of
  identical mesh tiles.
- `ScatterRender` places up to 1000 instances of a mesh at random inside a disc.

Both components build a **cache** lazily, on first read. The cache holds the
instance layout, the indirect draw arguments record and some compute
buffers. Each frame (`Update`) the component either:

- returns without work,
- clears a cache that failed validation, or
- optionally runs a GPU cull pass and then issues one draw.

What the model covers:

- **Terrain tile layout** (`TerrainLayout`). `tileDetail` is the ceiling of
  `cellCount / tileCount`, and `tilesX = tilesZ` is the ceiling of
  `cellCount / tileDetail`. The constructor's early returns become `None`.
- **Tile mesh** (`TerrainMesh`).
  - The vertex grid has `ceil(tileDetail / 6) + 1` vertices per side.
  - The index buffer is filled by the constructor's nested loops. These are
    modelled as a method on an array, with loop invariants. Each quad gets
    the six-index, two-triangle prototype.
  - The tile grid stores tile `(x, z)` at `x + z * tilesX`.
- **GPU interface** (`Device`). Buffers, the five-word indirect arguments
  record and the device-side `CopyCount` are modelled. A frame's commands
  become an ordered list of abstract events.
- **Cache lifecycle and frame logic** (`TerrainRender`, `ScatterRender`).
  - A `Ref<Cache>` models the nullable `_cache` field: `Null`, `Ref(Invalid)`
    or `Ref(Valid(..))`.
  - Also modelled: the lazy `cache` getter, `ClearCache`, `Dispose`,
    `OnDisable` and the per-frame decision of which cull and draw commands
    are issued.
  - The visible count the GPU computes is a parameter.
  - The engine's random source is a parameter too: the i-th
    `Random.insideUnitCircle` sample.

`Mathf.CeilToInt(a / (float)b)` is modelled as integer ceiling division
(`Arith.CeilDiv`). This assumes the operands stay small enough for the
single-precision quotient to round to the exact rational ceiling. The
shipped values (2048 cells, 32 tiles, at most 1000 instances, groups of 128)
are far inside that range. The model also uses unbounded integers where the
source uses 32-bit `int` and `uint`. This is the same small-operand
assumption.

Behaviours of the code a reader may not expect:

- A built cache is not rebuilt when settings change. The only ways to drop it
  are `OnDisable` and an invalid cache found by `Update`
  (`TerrainRender.BuiltCacheIgnoresSettings`).
- `ScatterRender.Update` always issues the plain instanced draw over all
  instances. It never issues the indirect draw, even when a cull kernel runs
  and fills the args record.
- `ScatterRender` never assigns `startPos`, so it stays at zero. The
  translations handed to the draw as world matrices therefore scatter the
  instances around the world origin. The selection gizmo, however, is drawn
  around the component's own position. The `origin` setting is unused.
- The terrain cull dispatch passes the kernel's declared thread group size as
  the group count (`TerrainRender.CullPassShape`). The scatter dispatch
  computes `ceil(n / 128)` groups instead.
- The terrain's plain draw covers every tile. With the shipped settings that
  is 1024 tiles, one more than the engine's instanced draw accepts (1023), so
  the frame's draw is rejected whenever culling is disabled or there is no
  kernel (`TerrainRender.DefaultPlainDrawRejected`). The scatter renderer's
  cap of 1000 instances keeps its draw within that limit.
- A tile's mesh uses the default 16-bit index format, which holds at most
  65535 vertices. That is 255 vertices per side, i.e. at most 1524 cells per
  tile (`TerrainMesh.VertexCountFitsUInt16`). One tile over the shipped 2048
  cells passes every guard but needs 343 vertices per side
  (`TerrainRender.SingleTileExceedsMeshLimit`).
- The terrain constructor reads the material's height scale once every guard
  has passed, and it does so without a null check. A cache therefore can only
  be built with a material unless the settings are rejected first
  (`TerrainRender.Constructible`, required by `Build` and `GetCache`).
  `Update` checks the material before reading the cache.
- The terrain constructor creates a new `Mesh` for every cache, but neither
  `Dispose` nor `ClearCache` destroys it. Only the compute buffers are
  released, so every rebuild after `OnDisable` leaves the previous mesh
  behind (`TerrainRender.Dispose` lists exactly what is released).
- For counts below 2^24, where the float quotient is exact, the
  constructor's `tileDetail < 2` guard is subsumed by the
  `tileCount >= cellCount` guard (`TerrainLayout.TileDetailGuardSubsumed`).

## Model

| member | source | states |
|---|---|---|
| Arith.CeilDiv | Assets/Scripts-Game/TerrainRender.cs:82 | the result is the least r with r * b >= a: `r * b >= a` and `(r - 1) * b < a` |
| Arith.CeilDivLeast | Assets/Scripts-Game/TerrainRender.cs:89 | any k covering a in steps of b is at least the ceiling; gives `tilesX <= tileCount` |
| Arith.CellInjective | Assets/Scripts-Game/TerrainRender.cs:164-165 | two tiles of a grid with the same flat index `x + z * w` are the same tile |
| Arith.CellEncode | Assets/Scripts-Game/TerrainRender.cs:157-158 | every flat index below `w * h` is the cell `(k % w, k / w)`, so the grid has no unused slot |
| TerrainLayout.ComputeLayout | Assets/Scripts-Game/TerrainRender.cs:65-90 | a layout exists iff world is non-null, `tileCount`, `cellCount` and `horizontalScale` are positive and `tileCount < cellCount`. Then `tileDetail` is the ceiling of `cellCount / tileCount` and is at least 2. `tilesX == tilesZ` is the ceiling of `cellCount / tileDetail`, and `1 <= tilesX <= tileCount`. The grid covers every cell, with at most one partial tile. |
| TerrainLayout.TileDetailGuardSubsumed | Assets/Scripts-Game/TerrainRender.cs:82-87 | when `0 < tileCount < cellCount`, `tileDetail >= 2`, so the second half of the guard never fires on its own |
| TerrainLayout.DefaultLayout | Assets/Scripts-Game/TerrainRender.cs:18-19 | the shipped 32 tiles over 2048 cells give 64 cells per tile and a 32 by 32 grid |
| TerrainMesh.VertSideCount | Assets/Scripts-Game/TerrainRender.cs:106-107 | a tile has at least 2 vertices per side, one every 6 cells, with the last vertex at or beyond the tile's edge: `(side - 1) * 6 >= tileDetail > (side - 2) * 6` |
| TerrainMesh.QuadPrototype | Assets/Scripts-Game/TerrainRender.cs:130 | six offsets, two triangles that share the diagonal between corners `1` and `side` |
| TerrainMesh.QuadPrototypeCorners | Assets/Scripts-Game/TerrainRender.cs:130 | the offsets reference only the quad's four corners `0, 1, side, side + 1` |
| TerrainMesh.SlotBijection | Assets/Scripts-Game/TerrainRender.cs:132-142 | the loop iterations (quad `(x, z)`, corner `i`) and the slots of the `6 * (side - 1)^2` buffer correspond one to one. Every iteration writes inside the buffer, no two iterations write the same slot, and every slot is written. |
| TerrainMesh.VertexCountFitsUInt16 | Assets/Scripts-Game/TerrainRender.cs:103-108 | a tile's `side * side` vertex grid fits a 16-bit indexed mesh (at most 65535 vertices) iff the tile spans at most 1524 cells |
| TerrainMesh.IndexAtInRange | Assets/Scripts-Game/TerrainRender.cs:130-142 | every index the prototype pattern produces is below `side * side`, so it names an existing vertex |
| TerrainMesh.IndexBufferInRange | Assets/Scripts-Game/TerrainRender.cs:130-145 | every entry of the index buffer names one of the `side * side` vertices |
| TerrainMesh.QuadsDetermineBuffer | Assets/Scripts-Game/TerrainRender.cs:130-145 | a buffer of the right length holding the prototype at every quad equals the slot-by-slot reference buffer, and all its entries lie in `[0, side * side)` |
| TerrainMesh.BuildIndices | Assets/Scripts-Game/TerrainRender.cs:129-145 | the nested loops give a buffer of exactly `6 * (side - 1)^2` indices, all in `[0, side * side)`. Quad `(x, z)`'s six slots from `6 * (x + z * (side - 1))` hold `v, v+side, v+1, v+1, v+side, v+side+1` with `v = x + z * side`. The result equals the reference buffer, and every slot of it is written by one of the loop iterations. |
| TerrainMesh.WriteQuad | Assets/Scripts-Game/TerrainRender.cs:137-143 | the innermost loop stores the six prototype offsets, added to the quad's first vertex `x + z * side`, in the quad's six slots and leaves every other slot unchanged |
| TerrainMesh.TileGridInRange | Assets/Scripts-Game/TerrainRender.cs:157-167 | every tile slot holds a tile inside the `tilesX` by `tilesZ` grid |
| TerrainMesh.TileGridCells | Assets/Scripts-Game/TerrainRender.cs:157-167 | tile `(x, z)` sits at flat index `x + z * tilesX` |
| TerrainMesh.BuildTileGrid | Assets/Scripts-Game/TerrainRender.cs:157-167 | the tile loops fill exactly `tilesX * tilesZ` slots, tile `(x, z)` at `x + z * tilesX`, equal to the reference grid |
| Device.ArgsRecord | Assets/Scripts-Game/TerrainRender.cs:175-177 | the args record has five words: index count, instance count, then three zero words |
| Device.CopyCount | Assets/Scripts-Game/TerrainRender.cs:303 | copying the append counter at a word-aligned byte offset writes the count into that one word and leaves every other word and the length unchanged |
| Device.CopyCountSetsInstanceCount | Assets/Scripts-Game/ScatterRender.cs:113 | at offset `sizeof(uint)` the copy replaces the instance count of `[indexCount, n, 0, 0, 0]` and keeps the other four words |
| Device.ReleaseLive | Assets/Scripts-Game/TerrainRender.cs:191-204 | disposing a list of buffer fields emits only release commands |
| Device.ReleaseLiveCounts | Assets/Scripts-Game/TerrainRender.cs:198-204 | each buffer is released exactly as many times as a non-null field refers to it; null fields are skipped |
| Device.ReleaseLiveAllNull | Assets/Scripts-Game/TerrainRender.cs:200-203 | a list of only null fields releases nothing |
| Device.ReleaseLiveAllLive | Assets/Scripts-Game/TerrainRender.cs:198-204 | a list of only live fields releases each one, in field order |
| TerrainRender.Build | Assets/Scripts-Game/TerrainRender.cs:63-187 | given a material or settings the guards reject (the constructor reads the material at line 149), the cache is valid iff every guard passes, and its layout is the computed one. A valid cache has `side * side` vertices and UVs and `6 * (side - 1)^2` indices, each naming an existing vertex. It has `tilesX * tilesZ` tiles with tile `(x, z)` at `x + z * tilesX`. Both CPU and device args records are `[indexCount, tilesX * tilesZ, 0, 0, 0]`. |
| TerrainRender.Dispose | Assets/Scripts-Game/TerrainRender.cs:189-205 | an invalid cache (all buffer fields null) releases nothing; a valid one releases its five buffers once each |
| TerrainRender.GetCache | Assets/Scripts-Game/TerrainRender.cs:208-219 | reading an empty cache constructs one from the current settings; a built cache is returned unchanged. Reading an empty cache needs a material unless the settings fail the guards, since the constructor reads the material at line 149. |
| TerrainRender.ClearCache | Assets/Scripts-Game/TerrainRender.cs:338-347 | afterwards the cache is empty; an empty cache clears with no commands, a built one is disposed |
| TerrainRender.CullPassShape | Assets/Scripts-Game/TerrainRender.cs:233-305 | the cull pass draws nothing and feeds every tile to the kernel. Its one dispatch uses the kernel's own thread group size as the group count, whatever the tile count. The visible counter is reset before the dispatch and copied after it. |
| TerrainRender.CullThenDraw | Assets/Scripts-Game/TerrainRender.cs:292-314 | a culled frame issues exactly one draw, last. The counter reset, the dispatch and the count copy come before it. The device args then carry the visible count in word 1, and nothing else in the cache changes. |
| TerrainRender.Render | Assets/Scripts-Game/TerrainRender.cs:233-315 | exactly one draw closes the frame. It is the plain draw over every tile iff `disableCulling` is set or there is no kernel, else the indirect draw. A dispatch happens iff a kernel exists, even with culling disabled. The counter reset, dispatch, count copy and draw come in that order. Word 1 of the device args then holds the visible count and the other words are unchanged. Nothing but the device args changes. |
| TerrainRender.Update | Assets/Scripts-Game/TerrainRender.cs:221-231 | a null world or material leaves the cache untouched, with no commands. An invalid cache ends empty, with no cull and no draw. A valid cache, found or freshly built, is rendered. The cache invariant is kept. |
| TerrainRender.OnDisable | Assets/Scripts-Game/TerrainRender.cs:318-321 | disabling always leaves the cache empty, releasing the buffers of a built one |
| TerrainRender.ClearCacheIdempotent | Assets/Scripts-Game/TerrainRender.cs:338-347 | clearing twice is the same as clearing once, and the second clear issues no command |
| TerrainRender.BuiltCacheIgnoresSettings | Assets/Scripts-Game/TerrainRender.cs:209-218 | once built, a valid cache keeps its layout and tiles through any change of settings |
| TerrainRender.DefaultTerrain | Assets/Scripts-Game/TerrainRender.cs:18-19 | shipped settings give 64-cell tiles and a 32 by 32 grid. Each tile has 12 vertices per side and 726 indices, and the args record starts as `[726, 1024, 0, 0, 0]`. |
| TerrainRender.DefaultPlainDrawRejected | Assets/Scripts-Game/TerrainRender.cs:306-311 | with the shipped settings and culling disabled, the frame's last command is the plain draw of 1024 instances, more than the engine accepts |
| TerrainRender.SingleTileExceedsMeshLimit | Assets/Scripts-Game/TerrainRender.cs:82-108 | one tile over 2048 cells passes every guard with a 2048-cell tile, 343 vertices per side and more vertices than a 16-bit indexed mesh holds |
| ScatterRender.ScatterPosition | Assets/Scripts-Game/ScatterRender.cs:55-56 | an instance lies on the ground plane, at `scatterRange` times the sample's distance from the start position |
| ScatterRender.Build | Assets/Scripts-Game/ScatterRender.cs:38-76 | the cache is valid iff `0 < instanceCount <= 1000` and a mesh is set. Then positions and transforms each have exactly `instanceCount` entries, and transform i translates to position i. The CPU and device args records are `[meshIndexCount, instanceCount, 0, 0, 0]`. |
| ScatterRender.PositionsWithinRange | Assets/Scripts-Game/ScatterRender.cs:53-59 | when every random sample lies in the unit disc, every instance lies on the ground plane within `scatterRange` of the start position |
| ScatterRender.GetCache | Assets/Scripts-Game/ScatterRender.cs:78-89 | reading an empty cache constructs one from the current settings; a built cache is returned unchanged |
| ScatterRender.BuiltCacheIgnoresSettings | Assets/Scripts-Game/ScatterRender.cs:78-117 | once built, a valid cache is returned by the getter unchanged and keeps its positions and transforms under any settings. Each frame draws the instance count the cache was built with, even after `instanceCount` changes. |
| ScatterRender.ClearCache | Assets/Scripts-Game/ScatterRender.cs:144-165 | afterwards the cache is empty. An empty or invalid cache releases nothing. A valid one releases the points, visible and args buffers once each. |
| ScatterRender.Render | Assets/Scripts-Game/ScatterRender.cs:103-117 | the plain draw over all `instanceCount` transforms always closes the frame, kernel or not. A dispatch happens iff a kernel exists. It uses g groups with `g * 128 >= n` and `(g - 1) * 128 < n`. It is ordered reset, dispatch, copy, draw, and word 1 of the device args then holds the visible count. The draw stays within the engine's 1023-instance limit. |
| ScatterRender.Update | Assets/Scripts-Game/ScatterRender.cs:91-101 | a null material leaves the cache untouched with no commands; an invalid cache ends empty with no draw; a valid cache is rendered; the cache invariant is kept |
| ScatterRender.OnDisable | Assets/Scripts-Game/ScatterRender.cs:132-135 | disabling always leaves the cache empty |
| ScatterRender.ClearCacheIdempotent | Assets/Scripts-Game/ScatterRender.cs:144-165 | clearing twice is the same as clearing once, and the second clear issues no command |
| ScatterRender.NoInstancesNoDraw | Assets/Scripts-Game/ScatterRender.cs:41-44 | with zero instances the cache is invalid with every buffer null, and a frame ends with no cache and no command |
| ScatterRender.CullGroupCounts | Assets/Scripts-Game/ScatterRender.cs:111 | the shipped 32 instances need one group of 128 threads; the maximum of 1000 needs eight |

## Left out

- Frustum plane construction (`TerrainRender.cs` lines 248-291). It is float
  vector algebra over the engine's camera and transform APIs. The model keeps
  only the event that the five planes are uploaded.
- Float mesh data: vertex coordinates, UV strides, `worldUVStride`, the
  bounds inflated by the material's `_HeightScale`, and the normal and
  tangent recomputation. Only the vertex and UV array sizes are modelled.
- World-space tile positions and transform matrices
  (`startPos + (x * stride.x, 0, z * stride.z)`), `stride`, `worldBounds` and
  `tileRadius`. These are float values, so a tile is modelled by its grid
  coordinates.
- All engine resource calls: `ComputeBuffer` allocation, `SetData`,
  `SetBuffer`, `SetInt`, `FindKernel`, `Dispatch` and the `Graphics` draw
  calls. They appear only as abstract events. The GPU cull kernels are not
  modelled, so the visible count is a parameter.
- `OnDrawGizmosSelected` in both components, a debug drawing path. It also
  reads the `cache` getter, possibly with a null material. The model's
  getter requires a material whenever the settings pass the guards
  (`TerrainRender.Constructible`), so the throwing path is not modelled.
- The commented-out per-tile draw loop in `ScatterRender.cs`.
- The editor windows and the `WorldTopography` asset's texture. The world
  asset appears only as its horizontal and elevation scales.
- Arith.CeilDiv: models `Mathf.CeilToInt` of a single-precision quotient as
  exact ceiling division. It does not model float rounding, which needs
  operands of more than 2^24.
- TerrainRender.Build: uses unbounded integers. It does not model 32-bit
  overflow of `vertSideCount * vertSideCount`, of the index count or of
  `tilesX * tilesZ`, which needs a cell count far beyond the shipped 2048.
  It also does not model the mesh rejecting more than 65535 vertices under its
  default 16-bit index format. This happens whenever `tileDetail > 1524`
  (`TerrainMesh.VertexCountFitsUInt16`), e.g. one tile over the shipped 2048
  cells. The engine's index count (`mesh.GetIndexCount(0)`) then differs from
  the index buffer's length, but the model still puts that length in word 0 of
  the args record.
- ScatterRender.Build: takes the random samples as a parameter. It does not
  model the engine's unseeded random generator.
- TerrainLayout.ComputeLayout: models the float `horizontalScale` as a real,
  which has no NaN. A NaN scale passes the source's `<= 0` guard and yields
  a valid cache. So "valid iff `horizontalScale > 0`" covers only non-NaN
  scales.
- TerrainRender.Render: assumes the cull shader has a `CameraCull` kernel
  and that a main camera exists. Whenever a kernel is set, even with
  `disableCulling`, the source looks up that kernel and reads
  `Camera.main.transform`. If either is missing it throws before the counter
  reset, the dispatch, the copy and the draw. The model then still issues
  them. This also holds for `TerrainRender.CullPassShape`,
  `TerrainRender.CullThenDraw` and `TerrainRender.Update`.
- TerrainRender.Render: the draw commands carry no mesh, material, bounds or
  shadow-casting arguments. An abstract `DrawInstanced` event does not throw.
  So "exactly one draw closes the frame" also holds when the engine would
  reject a plain draw of more than 1023 tiles, as it does at the shipped
  settings (`TerrainRender.DefaultPlainDrawRejected`).
- ScatterRender.Render: assumes the cull shader has a `SphereCull` kernel.
  Without it the source's kernel lookup throws, and the frame has neither a
  dispatch nor a draw. This also holds for `ScatterRender.Update`.
- ScatterRender.Render: the draw commands carry no mesh, material, bounds or
  shadow-casting arguments. The source draws with the component's current
  `mesh`, not one captured at build time. If the mesh is cleared after the
  cache was built, the engine's draw throws, but the model still draws.
