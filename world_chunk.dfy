/**
 * A chunk: a dense `width × height × width` grid of block records anchored
 * at chunk coordinate (cx, cz), generated in place by four passes.
 */
module Chunks {
  import opened Common
  import opened Blocks
  import opened ChunkSpec

  /** `?.id ?? empty`: the id of a looked-up block, a missing one read as empty. */
  function IdOr(b: Option<Block>, empty: int): (id: int)
    ensures b.None? ==> id == empty
    ensures b.Some? ==> id == b.value.id
  {
    match b
    case Some(block) => block.id
    case None => empty
  }

  class WorldChunk {
    const width: nat
    const height: nat
    const params: Params
    /** `userData.{x, z}`; the chunk's world position is `(cx * width, 0, cz * width)`. */
    const cx: int
    const cz: int
    /** The block records, `data[x][y][z]`. */
    var data: Grid
    /** Whether `generate` has completed. */
    var loaded: bool
    /** `mesh.count` of each kind's instanced mesh. */
    var counts: map<int, nat>

    ghost predicate Valid()
      reads this
    {
      Shaped(data, width, height)
    }

    /** The chunk holds, numbered for meshing, the grid that generation builds at its coordinate. */
    ghost predicate HoldsGenerated()
      reads this
      requires ParamsOk(params)
    {
      Meshed(GeneratedGrid(params, width, height, cx, cz), data, counts, width, height, params.catalog.empty)
    }

    /** A new chunk holds no data until generated. */
    constructor (width: nat, height: nat, params: Params, cx: int, cz: int)
      ensures this.width == width && this.height == height && this.params == params
      ensures this.cx == cx && this.cz == cz
      ensures data == [] && !loaded && counts == map[]
    {
      this.width, this.height, this.params := width, height, params;
      this.cx, this.cz := cx, cz;
      data := [];
      loaded := false;
      counts := map[];
    }

    /** Whether (x, y, z) lies inside the chunk's box. */
    predicate InBounds(x: int, y: int, z: int): (b: bool)
      ensures b <==> InBox(width, height, x, y, z)
    {
      x >= 0 && x < width && y >= 0 && y < height && z >= 0 && z < width
    }

    /** The record at (x, y, z), or `None` outside the chunk. */
    function GetBlock(x: int, y: int, z: int): (r: Option<Block>)
      reads this
      requires Valid()
      ensures r.None? <==> !(0 <= x < width && 0 <= y < height && 0 <= z < width)
      ensures r.Some? ==> r.value == data[x][y][z]
    {
      if InBounds(x, y, z) then Some(data[x][y][z]) else None
    }

    /** Sets the id of the cell at (x, y, z); outside the chunk nothing changes. */
    method SetBlock(x: int, y: int, z: int, id: int)
      requires Valid()
      modifies this`data
      ensures Valid()
      ensures forall i, j, k | InBox(width, height, i, j, k) ::
                data[i][j][k] == if i == x && j == y && k == z then old(data[i][j][k]).(id := id)
                                 else old(data[i][j][k])
    {
      if InBounds(x, y, z) {
        data := Put(data, width, height, x, y, z, data[x][y][z].(id := id));
      }
    }

    /** Sets the instance slot of the cell at (x, y, z); outside the chunk nothing changes. */
    method SetBlockInstance(x: int, y: int, z: int, instanceId: nat)
      requires Valid()
      modifies this`data
      ensures Valid()
      ensures forall i, j, k | InBox(width, height, i, j, k) ::
                data[i][j][k] == if i == x && j == y && k == z then old(data[i][j][k]).(instanceID := Some(instanceId))
                                 else old(data[i][j][k])
    {
      if InBounds(x, y, z) {
        data := Put(data, width, height, x, y, z, data[x][y][z].(instanceID := Some(instanceId)));
      }
    }

    /** True when all six face neighbours are non-empty; a neighbour outside the chunk reads as empty. */
    function IsBlockObscured(x: int, y: int, z: int): (r: bool)
      reads this
      requires Valid()
      ensures r <==> Obscured(data, width, height, params.catalog.empty, x, y, z)
    {
      var e := params.catalog.empty;
      var up := IdOr(GetBlock(x, y + 1, z), e);
      var down := IdOr(GetBlock(x, y - 1, z), e);
      var left := IdOr(GetBlock(x + 1, y, z), e);
      var right := IdOr(GetBlock(x - 1, y, z), e);
      var forward := IdOr(GetBlock(x, y, z + 1), e);
      var back := IdOr(GetBlock(x, y, z - 1), e);
      !(up == e || down == e || left == e || right == e || forward == e || back == e)
    }

    /** Fills the grid with `width × height × width` empty records without instances. */
    method InitializeTerrain()
      modifies this`data
      ensures Valid()
      ensures forall i, j, k | InBox(width, height, i, j, k) ::
                data[i][j][k] == Block(params.catalog.empty, None)
    {
      var b := Block(params.catalog.empty, None);
      data := [];
      for x := 0 to width
        invariant |data| == x
        invariant forall i | 0 <= i < x :: |data[i]| == height &&
                    forall j | 0 <= j < height :: |data[i][j]| == width &&
                      forall k | 0 <= k < width :: data[i][j][k] == b
      {
        var slice: seq<seq<Block>> := [];
        for y := 0 to height
          invariant |slice| == y
          invariant forall j | 0 <= j < y :: |slice[j]| == width &&
                      forall k | 0 <= k < width :: slice[j][k] == b
        {
          var row: seq<Block> := [];
          for z := 0 to width
            invariant |row| == z
            invariant forall k | 0 <= k < z :: row[k] == b
          {
            row := row + [b];
          }
          slice := slice + [row];
        }
        data := data + [slice];
      }
    }

    /** Cell (x, y, z) once resource `r` has been tried on it. */
    function ResourceStep(r: Resource, x: int, y: int, z: int, b: Block): Block
      requires ScalesNonZero(r)
    {
      if Exceeds(params, r, cx * width + x, y, cz * width + z) then b.(id := r.id) else b
    }

    /**
     * Applies the resources in catalog order: a cell whose noise exceeds a
     * resource's scarcity takes that resource's id, so later resources win.
     */
    method GenerateResources()
      requires Valid() && ParamsOk(params)
      modifies this`data
      ensures Valid()
      ensures forall i, j, k | InBox(width, height, i, j, k) ::
                data[i][j][k] == old(data[i][j][k]).(id := ResourceId(params, params.catalog.resources,
                                   cx * width + i, j, cz * width + k, old(data[i][j][k]).id))
    {
      var rs := params.catalog.resources;
      ghost var g0: Grid := data;
      for ri := 0 to |rs|
        invariant Valid()
        invariant forall i, j, k | InBox(width, height, i, j, k) ::
                    data[i][j][k] == g0[i][j][k].(id := ResourceId(params, rs[..ri], cx * width + i, j, cz * width + k, g0[i][j][k].id))
      {
        ApplyResource(rs[ri]);
        assert rs[..ri + 1][..ri] == rs[..ri];
      }
      assert rs[..|rs|] == rs;
    }

    /** One resource's pass over the whole grid. */
    method ApplyResource(r: Resource)
      requires Valid() && ScalesNonZero(r)
      modifies this`data
      ensures Valid()
      ensures forall i, j, k | InBox(width, height, i, j, k) :: data[i][j][k] == ResourceStep(r, i, j, k, old(data[i][j][k]))
    {
      ghost var prev: Grid := data;
      for x := 0 to width
        invariant Valid()
        invariant forall i, j, k | InBox(width, height, i, j, k) ::
                    data[i][j][k] == if LoopBefore(i, j, k, x, 0, 0) then ResourceStep(r, i, j, k, prev[i][j][k]) else prev[i][j][k]
      {
        for y := 0 to height
          invariant Valid()
          invariant forall i, j, k | InBox(width, height, i, j, k) ::
                      data[i][j][k] == if LoopBefore(i, j, k, x, y, 0) then ResourceStep(r, i, j, k, prev[i][j][k]) else prev[i][j][k]
        {
          ResourceRow(r, x, y, prev);
        }
      }
    }

    /** The `z` loop of a resource's pass over row (x, y). */
    method ResourceRow(r: Resource, x: int, y: int, ghost prev: Grid)
      requires Valid() && Shaped(prev, width, height) && ScalesNonZero(r) && 0 <= x < width && 0 <= y < height
      requires forall i, j, k | InBox(width, height, i, j, k) ::
                 data[i][j][k] == if LoopBefore(i, j, k, x, y, 0) then ResourceStep(r, i, j, k, prev[i][j][k]) else prev[i][j][k]
      modifies this`data
      ensures Valid()
      ensures forall i, j, k | InBox(width, height, i, j, k) ::
                data[i][j][k] == if LoopBefore(i, j, k, x, y + 1, 0) then ResourceStep(r, i, j, k, prev[i][j][k]) else prev[i][j][k]
    {
      for z := 0 to width
        invariant Valid()
        invariant forall i, j, k | InBox(width, height, i, j, k) ::
                    data[i][j][k] == if LoopBefore(i, j, k, x, y, z) then ResourceStep(r, i, j, k, prev[i][j][k]) else prev[i][j][k]
      {
        var value := params.noise3((cx * width + x) as real / r.scaleX,
                                   y as real / r.scaleY,
                                   (cz * width + z) as real / r.scaleZ);
        if value > r.scarcity {
          SetBlock(x, y, z, r.id);
        }
      }
    }

    /**
     * Fills each column up to its surface height: dirt into the empty cells
     * below the surface, grass at the surface, air above it.
     */
    method GenerateTerrain()
      requires Valid() && ParamsOk(params)
      modifies this`data
      ensures Valid()
      ensures forall i, j, k | InBox(width, height, i, j, k) ::
                data[i][j][k] == old(data[i][j][k]).(id := TerrainId(params.catalog,
                                   ColumnHeight(params, height, cx * width + i, cz * width + k), j, old(data[i][j][k]).id))
    {
      ghost var g0: Grid := data;
      for x := 0 to width
        invariant Valid()
        invariant forall i, j, k | InBox(width, height, i, j, k) ::
                    data[i][j][k] == if i < x then TerrainStep(i, j, k, g0[i][j][k]) else g0[i][j][k]
      {
        for z := 0 to width
          invariant Valid()
          invariant forall i, j, k | InBox(width, height, i, j, k) ::
                      data[i][j][k] == if i < x || (i == x && k < z) then TerrainStep(i, j, k, g0[i][j][k]) else g0[i][j][k]
        {
          var value := params.noise2((cx * width + x) as real / params.terrain.scale,
                                     (cz * width + z) as real / params.terrain.scale);
          var scaledNoise := params.terrain.offset + params.terrain.magnitude * value;
          var ht := (height as real * scaledNoise).Floor;
          ht := Max(0, Min(ht, height - 1));
          FillColumn(x, z, ht);
        }
      }
    }

    /** The `y` loop of the terrain pass: fills column (x, z) around surface height `ht`. */
    method FillColumn(x: int, z: int, ht: int)
      requires Valid() && ParamsOk(params) && 0 <= x < width && 0 <= z < width
      requires ht == ColumnHeight(params, height, cx * width + x, cz * width + z)
      modifies this`data
      ensures Valid()
      ensures forall i, j, k | InBox(width, height, i, j, k) ::
                data[i][j][k] == if i == x && k == z then TerrainStep(i, j, k, old(data[i][j][k])) else old(data[i][j][k])
    {
      var cat := params.catalog;
      ghost var g0: Grid := data;
      for y := 0 to height + 1
        invariant Valid()
        invariant forall i, j, k | InBox(width, height, i, j, k) ::
                    data[i][j][k] == if i == x && k == z && j < y then TerrainStep(i, j, k, g0[i][j][k]) else g0[i][j][k]
      {
        if y < ht && GetBlock(x, y, z).value.id == cat.empty {
          SetBlock(x, y, z, cat.dirt);
        } else if y == ht {
          SetBlock(x, y, z, cat.grass);
        } else if y > ht {
          SetBlock(x, y, z, cat.empty);
        }
      }
    }

    /** Cell (x, y, z) once its column has been filled. */
    function TerrainStep(x: int, y: int, z: int, b: Block): Block
      requires ParamsOk(params)
    {
      b.(id := TerrainId(params.catalog, ColumnHeight(params, height, cx * width + x, cz * width + z), y, b.id))
    }

    /**
     * Numbers the drawn cells of each kind in x, y, z order: every
     * non-empty cell that is not obscured gets the current count of its
     * kind as instance slot, and the count goes up by one.
     */
    method GenerateMeshes()
      requires Valid()
      modifies this`data, this`counts
      ensures Valid()
      ensures Meshed(old(data), data, counts, width, height, params.catalog.empty)
    {
      var e := params.catalog.empty;
      ghost var g0: Grid := data;
      counts := map[];
      for x := 0 to width
        invariant Valid()
        invariant forall i, j, k | InBox(width, height, i, j, k) ::
                    data[i][j][k] == if LoopBefore(i, j, k, x, 0, 0) then MeshedCell(g0, width, height, e, i, j, k) else g0[i][j][k]
        invariant forall kind :: Count(counts, kind) == DrawnBefore(g0, width, height, e, kind, x, 0, 0)
      {
        for y := 0 to height
          invariant Valid()
          invariant forall i, j, k | InBox(width, height, i, j, k) ::
                      data[i][j][k] == if LoopBefore(i, j, k, x, y, 0) then MeshedCell(g0, width, height, e, i, j, k) else g0[i][j][k]
          invariant forall kind :: Count(counts, kind) == DrawnBefore(g0, width, height, e, kind, x, y, 0)
        {
          MeshRow(x, y, g0);
        }
        forall kind
          ensures Count(counts, kind) == DrawnBefore(g0, width, height, e, kind, x + 1, 0, 0)
        {
          DrawnBeforeSliceEnd(g0, width, height, e, kind, x);
        }
      }
    }

    /** The `z` loop of the meshing pass over row (x, y), continuing the numbering of `g0`. */
    method MeshRow(x: int, y: int, ghost g0: Grid)
      requires Valid() && Shaped(g0, width, height) && 0 <= x < width && 0 <= y < height
      requires forall i, j, k | InBox(width, height, i, j, k) ::
                 data[i][j][k] == if LoopBefore(i, j, k, x, y, 0) then MeshedCell(g0, width, height, params.catalog.empty, i, j, k) else g0[i][j][k]
      requires forall kind :: Count(counts, kind) == DrawnBefore(g0, width, height, params.catalog.empty, kind, x, y, 0)
      modifies this`data, this`counts
      ensures Valid()
      ensures forall i, j, k | InBox(width, height, i, j, k) ::
                data[i][j][k] == if LoopBefore(i, j, k, x, y + 1, 0) then MeshedCell(g0, width, height, params.catalog.empty, i, j, k) else g0[i][j][k]
      ensures forall kind :: Count(counts, kind) == DrawnBefore(g0, width, height, params.catalog.empty, kind, x, y + 1, 0)
    {
      var e := params.catalog.empty;
      for z := 0 to width
        invariant Valid()
        invariant forall i, j, k | InBox(width, height, i, j, k) ::
                    data[i][j][k] == if LoopBefore(i, j, k, x, y, z) then MeshedCell(g0, width, height, e, i, j, k) else g0[i][j][k]
        invariant forall kind :: Count(counts, kind) == DrawnBefore(g0, width, height, e, kind, x, y, z)
      {
        MeshCell(x, y, z, g0);
      }
      forall kind
        ensures Count(counts, kind) == DrawnBefore(g0, width, height, e, kind, x, y + 1, 0)
      {
        DrawnBeforeRowEnd(g0, width, height, e, kind, x, y);
      }
    }

    /**
     * The body of the meshing loop at (x, y, z): numbers the cell if it is
     * drawn, which moves the numbering of `g0` on by one cell.
     */
    method MeshCell(x: int, y: int, z: int, ghost g0: Grid)
      requires Valid() && Shaped(g0, width, height) && InBox(width, height, x, y, z)
      requires forall i, j, k | InBox(width, height, i, j, k) ::
                 data[i][j][k] == if LoopBefore(i, j, k, x, y, z) then MeshedCell(g0, width, height, params.catalog.empty, i, j, k) else g0[i][j][k]
      requires forall kind :: Count(counts, kind) == DrawnBefore(g0, width, height, params.catalog.empty, kind, x, y, z)
      modifies this`data, this`counts
      ensures Valid()
      ensures forall i, j, k | InBox(width, height, i, j, k) ::
                data[i][j][k] == if LoopBefore(i, j, k, x, y, z + 1) then MeshedCell(g0, width, height, params.catalog.empty, i, j, k) else g0[i][j][k]
      ensures forall kind :: Count(counts, kind) == DrawnBefore(g0, width, height, params.catalog.empty, kind, x, y, z + 1)
    {
      var e := params.catalog.empty;
      var blockId := GetBlock(x, y, z).value.id;
      if blockId != e {
        var instanceId := Count(counts, blockId);
        ObscuredByIds(g0, data, width, height, e, x, y, z);
        if !IsBlockObscured(x, y, z) {
          SetBlockInstance(x, y, z, instanceId);
          counts := counts[blockId := instanceId + 1];
        }
      }
      forall kind
        ensures Count(counts, kind) == DrawnBefore(g0, width, height, e, kind, x, y, z + 1)
      {
        DrawnBeforeNext(g0, width, height, e, kind, x, y, z);
      }
    }

    /**
     * `generate`: empty grid, resources, terrain, meshes, then `loaded`.
     * The result depends only on the parameters and the chunk coordinate.
     */
    method Generate()
      requires ParamsOk(params)
      modifies this
      ensures Valid() && loaded
      ensures Meshed(GeneratedGrid(params, width, height, cx, cz), data, counts, width, height, params.catalog.empty)
    {
      InitializeTerrain();
      GenerateResources();
      GenerateTerrain();
      GridExt(data, GeneratedGrid(params, width, height, cx, cz), width, height);
      GenerateMeshes();
      loaded := true;
    }
  }
}
