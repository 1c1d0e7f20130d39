/**
 The integer side of the terrain tile mesh: the vertex grid's side length,
 the index buffer filled by the constructor's nested loops (two triangles
 per quad, six indices each), and the grid of tile slots the tile positions
 and transforms are written into.
 */
module TerrainMesh {
  import opened Arith

  /** The constructor places one vertex every `DownSample` cells. */
  const DownSample: nat := 6

  /** Indices per quad: two triangles. */
  const QuadCorners: nat := 6

  /** Vertices per side of a tile whose side spans `tileDetail` cells. */
  function VertSideCount(tileDetail: nat): (side: nat)
    requires tileDetail >= 1
    ensures side >= 2
    ensures (side - 1) * DownSample >= tileDetail
    ensures (side - 2) * DownSample < tileDetail
  {
    CeilDiv(tileDetail, DownSample) + 1
  }

  /** Offsets from a quad's lower-left vertex, as the constructor's
      prototype lists them: triangles (v, v+side, v+1) and (v+1, v+side, v+side+1). */
  function QuadPrototype(side: nat): (p: seq<nat>)
    ensures |p| == QuadCorners
    // the two triangles share the diagonal from corner 1 to corner side
    ensures p[1] == p[4] && p[2] == p[3]
  {
    [0, side, 1, 1, side, side + 1]
  }

  /** The prototype references only the quad's four corners. */
  lemma QuadPrototypeCorners(side: nat)
    ensures forall i :: 0 <= i < QuadCorners ==> QuadPrototype(side)[i] in {0, 1, side, side + 1}
  {
  }

  /** Slot of corner i of quad (x, z) in an index buffer of q-by-q quads. */
  function Slot(q: nat, x: nat, z: nat, i: nat): nat
  {
    QuadCorners * Cell(q, x, z) + i
  }

  /** Number of indices of a mesh with `side` vertices per side. */
  function IndexCount(side: nat): nat
    requires side >= 1
  {
    QuadCorners * (side - 1) * (side - 1)
  }

  lemma SlotInRange(q: nat, x: nat, z: nat, i: nat)
    requires x < q && z < q && i < QuadCorners
    ensures Slot(q, x, z, i) < QuadCorners * q * q
  {
    CellInGrid(q, q, x, z);
  }

  /** Each slot is addressed by exactly one (quad, corner): distinct loop
      iterations never write the same slot... */
  lemma SlotInjective(q: nat, x: nat, z: nat, i: nat, x': nat, z': nat, i': nat)
    requires x < q && x' < q && i < QuadCorners && i' < QuadCorners
    requires Slot(q, x, z, i) == Slot(q, x', z', i')
    ensures x == x' && z == z' && i == i'
  {
    DivModUnique(Slot(q, x, z, i), QuadCorners, Cell(q, x, z), i);
    DivModUnique(Slot(q, x', z', i'), QuadCorners, Cell(q, x', z'), i');
    CellInjective(q, x, z, x', z');
  }

  /** ...and every slot of the buffer is addressed by one of them. */
  lemma SlotCovers(q: nat, k: nat)
    requires k < QuadCorners * q * q
    ensures q > 0
    ensures (k / QuadCorners) % q < q && (k / QuadCorners) / q < q
    ensures Slot(q, (k / QuadCorners) % q, (k / QuadCorners) / q, k % QuadCorners) == k
  {
    assert k / QuadCorners < q * q;
    CellEncode(q, q, k / QuadCorners);
  }

  /** Some iteration (x, z, i) of the index loops writes slot k. */
  ghost predicate SlotWritten(q: nat, k: nat)
  {
    exists x: nat, z: nat, i: nat :: x < q && z < q && i < QuadCorners && Slot(q, x, z, i) == k
  }

  /** The loop iterations and the buffer slots are in one-to-one
      correspondence: every iteration writes inside the buffer, no two
      iterations write the same slot, and every slot is written. */
  lemma SlotBijection(q: nat)
    ensures forall x: nat, z: nat, i: nat :: x < q && z < q && i < QuadCorners ==>
              Slot(q, x, z, i) < QuadCorners * q * q
    ensures forall x: nat, z: nat, i: nat, x': nat, z': nat, i': nat ::
              (x < q && z < q && i < QuadCorners && x' < q && z' < q && i' < QuadCorners
               && Slot(q, x, z, i) == Slot(q, x', z', i')) ==> x == x' && z == z' && i == i'
    ensures forall k: nat :: k < QuadCorners * q * q ==> SlotWritten(q, k)
  {
    forall x: nat, z: nat, i: nat | x < q && z < q && i < QuadCorners
      ensures Slot(q, x, z, i) < QuadCorners * q * q
    {
      SlotInRange(q, x, z, i);
    }
    forall x: nat, z: nat, i: nat, x': nat, z': nat, i': nat |
        x < q && z < q && i < QuadCorners && x' < q && z' < q && i' < QuadCorners
        && Slot(q, x, z, i) == Slot(q, x', z', i')
      ensures x == x' && z == z' && i == i'
    {
      SlotInjective(q, x, z, i, x', z', i');
    }
    forall k: nat | k < QuadCorners * q * q
      ensures SlotWritten(q, k)
    {
      SlotCovers(q, k);
      var quad := k / QuadCorners;
      assert Slot(q, quad % q, quad / q, k % QuadCorners) == k;
    }
  }

  /** Largest vertex count a mesh with the default 16-bit index format holds. */
  const MaxVerticesUInt16: nat := 65535

  /** A tile's vertex grid fits a 16-bit indexed mesh exactly when the tile
      spans at most 1524 cells (at most 255 vertices per side). */
  lemma VertexCountFitsUInt16(tileDetail: nat)
    requires tileDetail >= 1
    ensures (VertSideCount(tileDetail) * VertSideCount(tileDetail) <= MaxVerticesUInt16) <==> (tileDetail <= 1524)
  {
    var side := VertSideCount(tileDetail);
    if side <= 255 {
      MulMono(side, 255, side);
      MulMono(side, 255, 255);
      MulMono(side - 2, 253, DownSample);
    } else {
      MulMono(256, side, side);
      MulMono(256, side, 256);
      MulMono(255, side - 1, DownSample);
    }
  }

  /** Reference definition: the vertex index at slot k, by decoding the slot
      into its quad and corner. */
  function IndexAt(side: nat, k: nat): nat
    requires side >= 2
  {
    var q := side - 1;
    var quad := k / QuadCorners;
    Cell(side, quad % q, quad / q) + QuadPrototype(side)[k % QuadCorners]
  }

  /** The index buffer the constructor hands to the mesh. */
  function IndexBuffer(side: nat): (r: seq<nat>)
    requires side >= 1
    ensures |r| == IndexCount(side)
  {
    if side == 1 then []
    else seq(IndexCount(side), k requires 0 <= k < IndexCount(side) => IndexAt(side, k))
  }

  /** Corner i of quad (x, z) references the vertex the prototype prescribes. */
  lemma IndexAtSlot(side: nat, x: nat, z: nat, i: nat)
    requires side >= 2
    requires x < side - 1 && z < side - 1 && i < QuadCorners
    ensures IndexAt(side, Slot(side - 1, x, z, i)) == Cell(side, x, z) + QuadPrototype(side)[i]
  {
    var q := side - 1;
    DivModUnique(Slot(q, x, z, i), QuadCorners, Cell(q, x, z), i);
    CellDecode(q, x, z);
  }

  /** No triangle references a vertex outside the side-by-side grid. */
  lemma IndexAtInRange(side: nat, k: nat)
    requires side >= 2
    requires k < IndexCount(side)
    ensures IndexAt(side, k) < side * side
  {
    var q := side - 1;
    SlotCovers(q, k);
    var quad := k / QuadCorners;
    var x, z := quad % q, quad / q;
    MulMono(z, q - 1, side);
    assert (q - 1) * side == side * side - 2 * side;
  }

  lemma IndexBufferInRange(side: nat)
    requires side >= 1
    ensures forall k :: 0 <= k < |IndexBuffer(side)| ==> IndexBuffer(side)[k] < side * side
  {
    forall k | 0 <= k < |IndexBuffer(side)|
      ensures IndexBuffer(side)[k] < side * side
    {
      IndexAtInRange(side, k);
    }
  }

  /** The six slots of quad (x, z) hold the prototype offsets added to the
      quad's first vertex `x + z * side`. */
  ghost predicate QuadWritten(s: seq<int>, side: nat, x: nat, z: nat)
    requires side >= 1
  {
    forall i :: 0 <= i < QuadCorners ==>
      Slot(side - 1, x, z, i) < |s| && s[Slot(side - 1, x, z, i)] == Cell(side, x, z) + QuadPrototype(side)[i]
  }

  /** A buffer holding the prototype pattern at every quad is the reference
      buffer, so it references only vertices of the grid. */
  lemma QuadsDetermineBuffer(side: nat, indices: seq<int>)
    requires side >= 1
    requires |indices| == IndexCount(side)
    requires forall x, z :: 0 <= x < side - 1 && 0 <= z < side - 1 ==> QuadWritten(indices, side, x, z)
    ensures forall x, z :: 0 <= x < side - 1 && 0 <= z < side - 1 ==> QuadWritten(indices, side, x, z)
    ensures forall k :: 0 <= k < |indices| ==> 0 <= indices[k] < side * side
    ensures indices == IndexBuffer(side)
  {
    var q := side - 1;
    forall k | 0 <= k < |indices|
      ensures indices[k] == IndexAt(side, k) && 0 <= indices[k] < side * side
    {
      SlotCovers(q, k);
      var quad := k / QuadCorners;
      assert QuadWritten(indices, side, quad % q, quad / q);
      IndexAtSlot(side, quad % q, quad / q, k % QuadCorners);
      IndexAtInRange(side, k);
    }
  }

  /** Slots of a different quad lie outside the six slots of quad (x, z). */
  lemma OtherQuadSlot(q: nat, x': nat, z': nat, i': nat, x: nat, z: nat)
    requires x' < q && x < q && i' < QuadCorners
    requires (x', z') != (x, z)
    ensures Slot(q, x', z', i') / QuadCorners != Cell(q, x, z)
  {
    DivModUnique(Slot(q, x', z', i'), QuadCorners, Cell(q, x', z'), i');
    if Cell(q, x', z') == Cell(q, x, z) {
      CellInjective(q, x', z', x, z);
    }
  }

  /** Writing the slots of quad (x, z) leaves every other quad as it was. */
  lemma QuadWrittenFrame(s: seq<int>, s': seq<int>, side: nat, x: nat, z: nat, x': nat, z': nat)
    requires side >= 2 && x < side - 1 && x' < side - 1 && (x', z') != (x, z)
    requires |s'| == |s|
    requires forall k :: 0 <= k < |s| && k / QuadCorners != Cell(side - 1, x, z) ==> s'[k] == s[k]
    requires QuadWritten(s, side, x', z')
    ensures QuadWritten(s', side, x', z')
  {
    var q := side - 1;
    forall i | 0 <= i < QuadCorners
      ensures Slot(q, x', z', i) < |s'|
              && s'[Slot(q, x', z', i)] == Cell(side, x', z') + QuadPrototype(side)[i]
    {
      var k := Slot(q, x', z', i);
      assert k < |s| && s[k] == Cell(side, x', z') + QuadPrototype(side)[i];
      OtherQuadSlot(q, x', z', i, x, z);
      assert k / QuadCorners != Cell(q, x, z);
      assert s'[k] == s[k];
    }
  }

  /** The innermost loop: the six prototype offsets of quad (x, z), added to
      its first vertex, stored in its six slots; nothing else is touched. */
  method WriteQuad(a: array<int>, side: nat, x: nat, z: nat)
    requires side >= 2 && x < side - 1 && z < side - 1
    requires a.Length == IndexCount(side)
    modifies a
    ensures QuadWritten(a[..], side, x, z)
    ensures forall k :: 0 <= k < a.Length && k / QuadCorners != Cell(side - 1, x, z) ==> a[k] == old(a[k])
  {
    var proto := QuadPrototype(side);
    var q := side - 1;
    var vertIndex := x + z * side;
    var quadIndex := |proto| * (x + z * q);
    SlotInRange(q, x, z, QuadCorners - 1);
    for i := 0 to |proto|
      invariant forall i' :: 0 <= i' < i ==>
                  Slot(q, x, z, i') < a.Length && a[Slot(q, x, z, i')] == Cell(side, x, z) + proto[i']
      invariant forall k :: 0 <= k < a.Length && k / QuadCorners != Cell(q, x, z) ==> a[k] == old(a[k])
    {
      a[quadIndex + i] := proto[i] + vertIndex;
    }
  }

  /** The constructor's index loops: for every quad (x, z), column by column,
      the six prototype offsets are added to the quad's first vertex
      `x + z * side` and stored at `6 * (x + z * (side - 1))`. By
      `SlotBijection` distinct iterations own distinct slots and every slot
      of the buffer is written, so each slot is written exactly once. */
  method BuildIndices(side: nat) returns (indices: seq<int>)
    requires side >= 1
    ensures |indices| == QuadCorners * (side - 1) * (side - 1)
    ensures forall x, z :: 0 <= x < side - 1 && 0 <= z < side - 1 ==> QuadWritten(indices, side, x, z)
    ensures forall k :: 0 <= k < |indices| ==> 0 <= indices[k] < side * side
    ensures indices == IndexBuffer(side)
    ensures var q := side - 1; forall k: nat :: k < |indices| ==> SlotWritten(q, k)
  {
    var q := side - 1;
    SlotBijection(q);
    var a := new int[IndexCount(side)];
    for x := 0 to q
      invariant forall x', z' :: 0 <= x' < x && 0 <= z' < q ==> QuadWritten(a[..], side, x', z')
    {
      for z := 0 to q
        invariant forall x', z' :: (0 <= x' < x && 0 <= z' < q) || (x' == x && 0 <= z' < z) ==>
                    QuadWritten(a[..], side, x', z')
      {
        ghost var before := a[..];
        WriteQuad(a, side, x, z);
        forall x', z' | (0 <= x' < x && 0 <= z' < q) || (x' == x && 0 <= z' < z)
          ensures QuadWritten(a[..], side, x', z')
        {
          QuadWrittenFrame(before, a[..], side, x, z, x', z');
        }
      }
    }
    indices := a[..];
    QuadsDetermineBuffer(side, indices);
  }

  /** A tile's place in the layout grid; its world position is
      `startPos + (x * stride.x, 0, z * stride.z)`. */
  datatype Tile = Tile(x: nat, z: nat)

  /** Reference definition: the tile stored at each flat position. */
  function TileGrid(tilesX: nat, tilesZ: nat): (r: seq<Tile>)
    ensures |r| == tilesX * tilesZ
  {
    if tilesX == 0 then []
    else seq(tilesX * tilesZ, k requires 0 <= k < tilesX * tilesZ => Tile(k % tilesX, k / tilesX))
  }

  /** Every entry of the grid names a tile inside the layout. */
  lemma TileGridInRange(tilesX: nat, tilesZ: nat)
    ensures forall k :: 0 <= k < |TileGrid(tilesX, tilesZ)| ==>
              TileGrid(tilesX, tilesZ)[k].x < tilesX && TileGrid(tilesX, tilesZ)[k].z < tilesZ
  {
    forall k | 0 <= k < |TileGrid(tilesX, tilesZ)|
      ensures TileGrid(tilesX, tilesZ)[k].x < tilesX && TileGrid(tilesX, tilesZ)[k].z < tilesZ
    {
      CellEncode(tilesX, tilesZ, k);
    }
  }

  /** Tile (x, z) sits at flat position `x + z * tilesX`. */
  lemma TileGridCells(tilesX: nat, tilesZ: nat)
    ensures forall x, z :: 0 <= x < tilesX && 0 <= z < tilesZ ==>
              Cell(tilesX, x, z) < |TileGrid(tilesX, tilesZ)| && TileGrid(tilesX, tilesZ)[Cell(tilesX, x, z)] == Tile(x, z)
  {
    forall x, z | 0 <= x < tilesX && 0 <= z < tilesZ
      ensures Cell(tilesX, x, z) < |TileGrid(tilesX, tilesZ)| && TileGrid(tilesX, tilesZ)[Cell(tilesX, x, z)] == Tile(x, z)
    {
      CellInGrid(tilesX, tilesZ, x, z);
      CellDecode(tilesX, x, z);
    }
  }

  /** The constructor's tile loops: tile (x, z) is stored at `x + z * tilesX`. */
  method BuildTileGrid(tilesX: nat, tilesZ: nat) returns (tiles: seq<Tile>)
    ensures |tiles| == tilesX * tilesZ
    ensures forall x, z :: 0 <= x < tilesX && 0 <= z < tilesZ ==>
              Cell(tilesX, x, z) < |tiles| && tiles[Cell(tilesX, x, z)] == Tile(x, z)
    ensures tiles == TileGrid(tilesX, tilesZ)
  {
    var a := new Tile[tilesX * tilesZ](_ => Tile(0, 0));
    for x := 0 to tilesX
      invariant forall x', z' :: 0 <= x' < x && 0 <= z' < tilesZ ==>
                  Cell(tilesX, x', z') < a.Length && a[Cell(tilesX, x', z')] == Tile(x', z')
    {
      for z := 0 to tilesZ
        invariant forall x', z' :: 0 <= x' < x && 0 <= z' < tilesZ ==>
                    Cell(tilesX, x', z') < a.Length && a[Cell(tilesX, x', z')] == Tile(x', z')
        invariant forall z' :: 0 <= z' < z ==>
                    Cell(tilesX, x, z') < a.Length && a[Cell(tilesX, x, z')] == Tile(x, z')
      {
        CellInGrid(tilesX, tilesZ, x, z);
        a[x + z * tilesX] := Tile(x, z);
        forall x', z' | 0 <= x' < tilesX && 0 <= z' && (x', z') != (x, z)
          ensures Cell(tilesX, x', z') != Cell(tilesX, x, z)
        {
          if Cell(tilesX, x', z') == Cell(tilesX, x, z) {
            CellInjective(tilesX, x', z', x, z);
          }
        }
      }
    }
    tiles := a[..];
    forall k | 0 <= k < |tiles|
      ensures tiles[k] == TileGrid(tilesX, tilesZ)[k]
    {
      CellEncode(tilesX, tilesZ, k);
    }
    forall x, z | 0 <= x < tilesX && 0 <= z < tilesZ
      ensures Cell(tilesX, x, z) < |tiles|
    {
      CellInGrid(tilesX, tilesZ, x, z);
    }
  }
}
