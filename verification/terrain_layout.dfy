/**
 Tile layout of the terrain renderer: how many source cells one tile covers
 (`tileDetail`), how many tiles are needed along each axis to cover the whole
 cell grid, and the configuration guards that leave the cache invalid.
 */
module TerrainLayout {
  import opened Refs
  import opened Arith

  /** The world asset; only its horizontal scale takes part in validation.
      The elevation scale only sizes the draw bounds. */
  datatype WorldTopography = WorldTopography(horizontalScale: real, elevationScale: real)

  datatype Layout = Layout(tileDetail: nat, tilesX: nat, tilesZ: nat)

  /** The configuration passes every guard of the cache constructor. */
  predicate Acceptable(world: Ref<WorldTopography>, tileCount: int, cellCount: int)
  {
    world.Ref? && tileCount > 0 && cellCount > 0 && world.value.horizontalScale > 0.0
    && tileCount < cellCount
  }

  /** The layout the cache constructor computes, or None where it returns
      early and leaves the cache invalid. */
  function ComputeLayout(world: Ref<WorldTopography>, tileCount: int, cellCount: int): (r: Option<Layout>)
    ensures r.Some? <==> Acceptable(world, tileCount, cellCount)
    ensures r.Some? ==>
      var l := r.value;
      // tileDetail is the ceiling of cellCount / tileCount
      && l.tileDetail * tileCount >= cellCount && (l.tileDetail - 1) * tileCount < cellCount
      && l.tileDetail >= 2
      // tilesX = tilesZ is the ceiling of cellCount / tileDetail
      && l.tilesX == l.tilesZ
      && l.tilesX * l.tileDetail >= cellCount && (l.tilesX - 1) * l.tileDetail < cellCount
      && 1 <= l.tilesX <= tileCount
  {
    if world.Null? then None
    else if tileCount <= 0 || world.value.horizontalScale <= 0.0 || cellCount <= 0 then None
    else
      var tileDetail := CeilDiv(cellCount, tileCount);
      if tileCount >= cellCount || tileDetail < 2 then None
      else
        var tilesX := CeilDiv(cellCount, tileDetail);
        CeilDivLeast(cellCount, tileDetail, tileCount);
        Some(Layout(tileDetail, tilesX, tilesX))
  }

  /** The `tileDetail < 2` guard never fires on its own: once
      `0 < tileCount < cellCount`, every tile covers at least two cells. */
  lemma TileDetailGuardSubsumed(tileCount: int, cellCount: int)
    requires 0 < tileCount < cellCount
    ensures CeilDiv(cellCount, tileCount) >= 2
  {
    var d := CeilDiv(cellCount, tileCount);
    if d <= 1 {
      MulMono(d, 1, tileCount);
    }
  }

  /** The shipped defaults: 2048 cells in 32 tiles of 64 cells each. */
  lemma DefaultLayout(world: WorldTopography)
    requires world.horizontalScale > 0.0
    ensures ComputeLayout(Ref(world), 32, 2048) == Some(Layout(64, 32, 32))
  {
    CeilDivUnique(2048, 32, 64);
    CeilDivUnique(2048, 64, 32);
  }

  /** A single tile over the shipped 2048 cells: the tile spans every cell. */
  lemma SingleTileLayout(world: WorldTopography)
    requires world.horizontalScale > 0.0
    ensures ComputeLayout(Ref(world), 1, 2048) == Some(Layout(2048, 1, 1))
  {
    assert Acceptable(Ref(world), 1, 2048);
    CeilDivUnique(2048, 1, 2048);
    CeilDivUnique(2048, 2048, 1);
  }

}
