/**
 * The block record, the chunk grid and the generation parameters.
 *
 * The block catalog (ids of the empty, grass and dirt kinds, and the list of
 * resource kinds with their noise scales and scarcity thresholds) is a
 * parameter of the model, and so are the two coherent-noise functions the
 * chunk builds from the world seed.
 */
module Blocks {
  import opened Common

  /** One cell of a chunk: `{id, instanceID}`, where a `null` instance is `None`. */
  datatype Block = Block(id: int, instanceID: Option<nat>)

  /** `data[x][y][z]`, indexed x, then y, then z. */
  type Grid = seq<seq<seq<Block>>>

  /** A resource kind: the id it writes, its per-axis noise scale and its threshold. */
  datatype Resource = Resource(id: int, scaleX: real, scaleY: real, scaleZ: real, scarcity: real)

  /** `params.terrain`: how the 2D noise is scaled into a column height. */
  datatype Terrain = Terrain(scale: real, magnitude: real, offset: real)

  /** The part of the block catalog the generator reads. */
  datatype Catalog = Catalog(empty: int, grass: int, dirt: int, resources: seq<Resource>)

  /**
   * World parameters. `noise3` is the 3D noise of the generator built for the
   * resource pass and `noise2` the 2D noise of the generator built for the
   * terrain pass; both are fixed functions of the world seed.
   */
  datatype Params = Params(
    terrain: Terrain,
    catalog: Catalog,
    noise3: (real, real, real) -> real,
    noise2: (real, real) -> real)

  predicate ScalesNonZero(r: Resource)
  {
    r.scaleX != 0.0 && r.scaleY != 0.0 && r.scaleZ != 0.0
  }

  predicate ResourcesWellScaled(rs: seq<Resource>)
  {
    forall i :: 0 <= i < |rs| ==> ScalesNonZero(rs[i])
  }

  /** The parameters the generator can divide by. */
  predicate ParamsOk(p: Params)
  {
    p.terrain.scale != 0.0 && ResourcesWellScaled(p.catalog.resources)
  }

  /** The chunk bounds test: `[0,w) × [0,h) × [0,w)`. */
  predicate InBox(w: nat, h: nat, x: int, y: int, z: int)
  {
    0 <= x < w && 0 <= y < h && 0 <= z < w
  }

  /** `g` is a dense `w × h × w` grid. */
  predicate Shaped(g: Grid, w: nat, h: nat)
  {
    && |g| == w
    && (forall x :: 0 <= x < w ==> |g[x]| == h)
    && (forall x, y :: 0 <= x < w && 0 <= y < h ==> |g[x][y]| == w)
  }

  /** `g` with the cell at (x, y, z) replaced by `b`. */
  function Put(g: Grid, w: nat, h: nat, x: int, y: int, z: int, b: Block): (r: Grid)
    requires Shaped(g, w, h) && InBox(w, h, x, y, z)
    ensures Shaped(r, w, h)
    ensures forall i, j, k | InBox(w, h, i, j, k) ::
              r[i][j][k] == if i == x && j == y && k == z then b else g[i][j][k]
  {
    g[x := g[x][y := g[x][y][z := b]]]
  }

  /** Two grids of one shape that agree on every cell are equal. */
  lemma GridExt(a: Grid, b: Grid, w: nat, h: nat)
    requires Shaped(a, w, h) && Shaped(b, w, h)
    requires forall x, y, z | InBox(w, h, x, y, z) :: a[x][y][z] == b[x][y][z]
    ensures a == b
  {
    forall x | 0 <= x < w
      ensures a[x] == b[x]
    {
      forall y | 0 <= y < h
        ensures a[x][y] == b[x][y]
      {
        assert forall z | 0 <= z < w :: InBox(w, h, x, y, z);
      }
    }
  }
}
