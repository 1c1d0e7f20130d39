/**
 The terrain renderer component: its settings, the lazily built cache (tile
 layout, tile mesh sizes and indices, tile grid, indirect arguments and the
 five compute buffers it owns), and the per-frame decision of what to cull
 and how to draw. GPU work is reduced to the ordered events of a frame.
 */
module TerrainRender {
  import opened Refs
  import opened Arith
  import opened Device
  import opened TerrainLayout
  import opened TerrainMesh

  /** The component's references and settings (the normalised origin only
      shifts float positions and is not part of this model). */
  datatype TerrainRenderer = TerrainRenderer(
    world: Ref<WorldTopography>,
    material: Ref<Material>,
    cullKernel: Ref<Kernel>,
    tileCount: int,
    cellCount: int,
    disableCulling: bool)

  /** Number of cull planes: the far plane and four sides, no near plane. */
  const FrustumSides: nat := 5

  /** A cache either returned early from its constructor (`valid == false`,
      every buffer reference still null) or completed every step. */
  datatype TerrainCache =
    | Invalid
    | Valid(
        layout: Layout,
        vertSideCount: nat,
        vertexCount: nat,
        uvCount: nat,
        indices: seq<int>,
        tiles: seq<Tile>,
        argsValues: seq<nat>,
        deviceArgs: seq<nat>)

  /** The buffer fields released on disposal, in declaration order. */
  function Buffers(c: TerrainCache): seq<Ref<Buffer>>
  {
    if c.Invalid? then [Null, Null, Null, Null, Null]
    else [Ref(Points), Ref(Visible), Ref(Args), Ref(PlaneOrigins), Ref(PlaneNormals)]
  }

  /** What every cache keeps: a five-word args buffer on the device that
      agrees with the CPU record except for the instance count, which the
      cull pass overwrites. */
  ghost predicate Wf(c: TerrainCache)
  {
    c.Valid? ==>
      && c.argsValues == ArgsRecord(|c.indices|, |c.tiles|)
      && |c.deviceArgs| == ArgsWords
      && forall k :: 0 <= k < ArgsWords && k != InstanceCountWord ==> c.deviceArgs[k] == c.argsValues[k]
  }

  /** The constructor reads the material's height scale once every guard
      has passed, so it throws on a null material unless it returns early. */
  predicate Constructible(r: TerrainRenderer)
  {
    r.material.Ref? || !Acceptable(r.world, r.tileCount, r.cellCount)
  }

  /** The cache constructor. */
  function Build(r: TerrainRenderer): (c: TerrainCache)
    requires Constructible(r)
    ensures Wf(c)
    ensures c.Valid? <==> Acceptable(r.world, r.tileCount, r.cellCount)
    ensures c.Valid? ==> Some(c.layout) == ComputeLayout(r.world, r.tileCount, r.cellCount)
    ensures c.Valid? ==>
      // one vertex every DownSample cells, both ends included
      && c.vertSideCount >= 2
      && (c.vertSideCount - 1) * DownSample >= c.layout.tileDetail
      && (c.vertSideCount - 2) * DownSample < c.layout.tileDetail
      && c.vertexCount == c.uvCount == c.vertSideCount * c.vertSideCount
      // two triangles per quad, every index naming an existing vertex
      && |c.indices| == QuadCorners * (c.vertSideCount - 1) * (c.vertSideCount - 1)
      && (forall k :: 0 <= k < |c.indices| ==> 0 <= c.indices[k] < c.vertexCount)
      // one tile slot per tile, tile (x, z) at x + z * tilesX
      && |c.tiles| == c.layout.tilesX * c.layout.tilesZ
      && (forall x, z :: 0 <= x < c.layout.tilesX && 0 <= z < c.layout.tilesZ ==>
            Cell(c.layout.tilesX, x, z) < |c.tiles| && c.tiles[Cell(c.layout.tilesX, x, z)] == Tile(x, z))
      // the args record starts as [index count, tile count, 0, 0, 0] on both sides
      && c.argsValues == ArgsRecord(|c.indices|, |c.tiles|)
      && c.deviceArgs == c.argsValues
  {
    match ComputeLayout(r.world, r.tileCount, r.cellCount)
    case None => Invalid
    case Some(layout) =>
      var side := VertSideCount(layout.tileDetail);
      var indices := IndexBuffer(side);
      var tiles := TileGrid(layout.tilesX, layout.tilesZ);
      var args := ArgsRecord(|indices|, |tiles|);
      IndexBufferInRange(side);
      TileGridCells(layout.tilesX, layout.tilesZ);
      Valid(layout, side, side * side, side * side, indices, tiles, args, args)
  }

  /** Release every non-null buffer of the cache: none for a cache that
      returned early, all five, once each, for a complete one. */
  function Dispose(c: TerrainCache): (es: seq<Event>)
    ensures c.Invalid? ==> es == []
    ensures c.Valid? ==> es == [Release(Points), Release(Visible), Release(Args),
                                Release(PlaneOrigins), Release(PlaneNormals)]
  {
    var handles := Buffers(c);
    if c.Invalid? then
      ReleaseLiveAllNull(handles);
      ReleaseLive(handles)
    else
      ReleaseLiveAllLive(handles);
      var es := ReleaseLive(handles);
      assert es[0] == Release(Points) && es[1] == Release(Visible) && es[2] == Release(Args)
        && es[3] == Release(PlaneOrigins) && es[4] == Release(PlaneNormals);
      es
  }

  /** The `cache` getter: an empty reference is filled by constructing a
      cache from the current settings; a built cache is returned as it is. */
  function GetCache(r: TerrainRenderer, cache: Ref<TerrainCache>): (c: Ref<TerrainCache>)
    requires cache.Null? ==> Constructible(r)
    ensures c.Ref?
    ensures cache.Ref? ==> c == cache
    ensures cache.Null? ==> c.value == Build(r)
  {
    if cache.Null? then Ref(Build(r)) else cache
  }

  /** `ClearCache`: dispose and forget the cache if there is one. */
  function ClearCache(cache: Ref<TerrainCache>): (f: Frame<TerrainCache>)
    ensures f.cache.Null?
    ensures cache.Null? ==> f.events == []
    ensures cache.Ref? ==> f.events == Dispose(cache.value)
  {
    Frame(Null, if cache.Null? then [] else Dispose(cache.value))
  }

  /** The culling commands of one frame, in submission order. */
  function CullPass(c: TerrainCache, kernel: Kernel): seq<Event>
    requires c.Valid?
  {
    [ BindCullInputs(|c.tiles|),
      UploadCullPlanes,
      ResetVisibleCounter,
      // the kernel's declared thread group size is passed as the group count
      Dispatch(kernel.threadGroupX, kernel.threadGroupY, kernel.threadGroupZ),
      CopyVisibleCount(SizeOfUint),
      BindVisibleToMaterial ]
  }

  /** The cull pass draws nothing, feeds every tile to the kernel, and
      dispatches exactly the kernel's thread group size as the group count,
      whatever the tile count; the counter is reset before the dispatch and
      copied after it. */
  lemma CullPassShape(c: TerrainCache, kernel: Kernel)
    requires c.Valid?
    ensures var es := CullPass(c, kernel);
      && NoDraw(es) && Dispatches(es)
      && (forall i :: 0 <= i < |es| && es[i].BindCullInputs? ==> es[i].pointCount == |c.tiles|)
      && (forall i :: 0 <= i < |es| && es[i].Dispatch? ==>
            es[i] == Dispatch(kernel.threadGroupX, kernel.threadGroupY, kernel.threadGroupZ))
      && CullSequenced(es)
  {
    var es := CullPass(c, kernel);
    assert es[2] == ResetVisibleCounter && es[3].Dispatch? && es[4].CopyVisibleCount?;
  }

  /** The cache contents other than the device-side args words are equal. */
  predicate SameCache(c1: TerrainCache, c2: TerrainCache)
  {
    c1.Valid? && c2.Valid? && c1.(deviceArgs := c2.deviceArgs) == c2
  }

  /** A frame that culls with `kernel` and then issues `draw`: the draw is
      the only one and comes last, after the counter reset, the dispatch and
      the count copy, and the device args then carry the visible count. */
  function CullThenDraw(c: TerrainCache, kernel: Kernel, draw: Event, visibleCount: nat): (f: Frame<TerrainCache>)
    requires c.Valid? && Wf(c) && IsDraw(draw)
    ensures f.cache.Ref? && Wf(f.cache.value) && SameCache(f.cache.value, c)
    ensures DrawsOnceLast(f.events) && f.events[|f.events| - 1] == draw
    ensures Dispatches(f.events) && CullOrdered(f.events)
    ensures f.cache.value.deviceArgs == ArgsRecord(|c.indices|, visibleCount)
  {
    var cull := CullPass(c, kernel);
    var es := cull + [draw];
    assert es[..|es| - 1] == cull;
    assert es[2] == ResetVisibleCounter && es[3].Dispatch? && es[4].CopyVisibleCount? && IsDraw(es[6]);
    var c' := c.(deviceArgs := CopyCount(c.deviceArgs, SizeOfUint, visibleCount));
    assert c'.deviceArgs == ArgsRecord(|c.indices|, visibleCount);
    Frame(Ref(c'), es)
  }

  /** The part of `Update` after the cache was found valid: cull when a
      kernel exists, then draw. `visibleCount` is the value the GPU's append
      counter holds after the cull dispatch; the model does not compute it. */
  function Render(r: TerrainRenderer, c: TerrainCache, visibleCount: nat): (f: Frame<TerrainCache>)
    requires c.Valid? && Wf(c)
    ensures f.cache.Ref? && Wf(f.cache.value) && SameCache(f.cache.value, c)
    // exactly one draw closes the frame
    ensures DrawsOnceLast(f.events)
    // the plain draw over every tile iff culling is off or impossible, else the indirect draw
    ensures (f.events[|f.events| - 1] == DrawInstanced(|c.tiles|)) <==> (r.disableCulling || r.cullKernel.Null?)
    ensures (f.events[|f.events| - 1] == DrawIndirect) <==> (!r.disableCulling && r.cullKernel.Ref?)
    // culling runs whenever a kernel exists, even when its result is not used
    ensures Dispatches(f.events) <==> r.cullKernel.Ref?
    // after the cull pass the device args carry the visible count in word 1
    ensures r.cullKernel.Ref? ==>
              CullOrdered(f.events) && f.cache.value.deviceArgs == ArgsRecord(|c.indices|, visibleCount)
    ensures r.cullKernel.Null? ==> f.cache.value == c
  {
    if r.cullKernel.Null? then
      Frame(Ref(c), [DrawInstanced(|c.tiles|)])
    else if r.disableCulling then
      CullThenDraw(c, r.cullKernel.value, DrawInstanced(|c.tiles|), visibleCount)
    else
      CullThenDraw(c, r.cullKernel.value, DrawIndirect, visibleCount)
  }

  /** One `Update`: do nothing without world or material; otherwise read
      the cache (building it if empty), clear it if invalid, render if valid. */
  function Update(r: TerrainRenderer, cache: Ref<TerrainCache>, visibleCount: nat): (f: Frame<TerrainCache>)
    requires cache.Ref? ==> Wf(cache.value)
    ensures f.cache.Ref? ==> Wf(f.cache.value)
    // missing world or material: nothing happens, the cache is not even read
    ensures r.world.Null? || r.material.Null? ==> f == Frame(cache, [])
    // an invalid cache is cleared: no cull, no draw, and no buffer to release
    ensures r.world.Ref? && r.material.Ref? && GetCache(r, cache).value.Invalid? ==>
              f == Frame(Null, [])
    // a valid cache, found or freshly built, is rendered
    ensures r.world.Ref? && r.material.Ref? && GetCache(r, cache).value.Valid? ==>
              f == Render(r, GetCache(r, cache).value, visibleCount)
  {
    if r.world.Null? || r.material.Null? then Frame(cache, [])
    else
      var c := GetCache(r, cache).value;
      if c.Invalid? then ClearCache(Ref(c))
      else Render(r, c, visibleCount)
  }

  /** `OnDisable`: the component being disabled clears the cache. */
  function OnDisable(cache: Ref<TerrainCache>): (f: Frame<TerrainCache>)
    ensures f.cache.Null?
    ensures cache.Ref? ==> f.events == Dispose(cache.value)
  {
    ClearCache(cache)
  }

  /** Clearing is idempotent: an empty cache clears to itself with no
      commands, so a second clear is always a no-op. */
  lemma ClearCacheIdempotent(cache: Ref<TerrainCache>)
    ensures ClearCache(ClearCache(cache).cache) == Frame(Null, [])
    ensures ClearCache(Null).cache == Null
  {
  }

  /** Settings are read only when the cache is constructed: a built cache
      survives any change of tile or cell count until it is cleared. */
  lemma BuiltCacheIgnoresSettings(r1: TerrainRenderer, r2: TerrainRenderer, c: TerrainCache, v: nat)
    requires Wf(c) && c.Valid?
    requires r1.world.Ref? && r1.material.Ref? && r2.world.Ref? && r2.material.Ref?
    ensures Update(r1, Ref(c), v).cache.Ref? && Update(r2, Ref(c), v).cache.Ref?
    ensures Update(r1, Ref(c), v).cache.value.layout == Update(r2, Ref(c), v).cache.value.layout == c.layout
    ensures Update(r1, Ref(c), v).cache.value.tiles == Update(r2, Ref(c), v).cache.value.tiles == c.tiles
  {
  }

  /** With the shipped settings (2048 cells, 32 tiles) every tile covers 64
      cells, the grid is 32 by 32, a tile has 12 vertices per side and
      726 indices, and the args record starts as [726, 1024, 0, 0, 0]. */
  lemma DefaultTerrain(world: WorldTopography, material: Material, kernel: Ref<Kernel>, off: bool)
    requires world.horizontalScale > 0.0
    ensures var c := Build(TerrainRenderer(Ref(world), Ref(material), kernel, 32, 2048, off));
      && c.Valid? && c.layout == Layout(64, 32, 32) && c.vertSideCount == 12
      && |c.indices| == 726 && |c.tiles| == 1024 && c.argsValues == [726, 1024, 0, 0, 0]
  {
    DefaultLayout(world);
    CeilDivUnique(64, DownSample, 11);
  }

  /** The plain draw covers every tile, and with the shipped settings that is
      1024 tiles, one more than the engine's instanced draw accepts: with
      culling disabled or no kernel, the frame's only draw is one the engine
      rejects. */
  lemma DefaultPlainDrawRejected(world: WorldTopography, material: Material, kernel: Ref<Kernel>, v: nat)
    requires world.horizontalScale > 0.0
    ensures var f := Update(TerrainRenderer(Ref(world), Ref(material), kernel, 32, 2048, true), Null, v);
      && |f.events| > 0
      && f.events[|f.events| - 1] == DrawInstanced(1024)
      && !EngineAccepts(f.events[|f.events| - 1])
  {
    DefaultTerrain(world, material, kernel, true);
  }

  /** One tile over the shipped 2048 cells passes every guard, yet its tile
      mesh has 343 vertices per side, far more than a mesh with the default
      16-bit index format holds. */
  lemma SingleTileExceedsMeshLimit(world: WorldTopography)
    requires world.horizontalScale > 0.0
    ensures ComputeLayout(Ref(world), 1, 2048) == Some(Layout(2048, 1, 1))
    ensures VertSideCount(2048) == 343
    ensures VertSideCount(2048) * VertSideCount(2048) > MaxVerticesUInt16
  {
    SingleTileLayout(world);
    CeilDivUnique(2048, DownSample, 342);
    VertexCountFitsUInt16(2048);
  }


}
