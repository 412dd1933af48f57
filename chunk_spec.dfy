/**
 * What the generation passes of a chunk compute, stated on grid values:
 * the resource pass, the column terrain fill, the six-neighbour obscured
 * test and the per-kind instance-slot numbering of the meshing pass.
 */
module ChunkSpec {
  import opened Common
  import opened Blocks

  // ---------------------------------------------------------------------
  // Resources
  // ---------------------------------------------------------------------

  /** Resource `r`'s noise at world cell (wx, wy, wz) is above its scarcity. */
  predicate Exceeds(p: Params, r: Resource, wx: int, wy: int, wz: int)
    requires ScalesNonZero(r)
  {
    p.noise3(wx as real / r.scaleX, wy as real / r.scaleY, wz as real / r.scaleZ) > r.scarcity
  }

  /** The id of a cell that held `id0`, once the resources `rs` have been applied in list order. */
  function ResourceId(p: Params, rs: seq<Resource>, wx: int, wy: int, wz: int, id0: int): int
    requires ResourcesWellScaled(rs)
  {
    if rs == [] then id0
    else
      var prev := ResourceId(p, rs[..|rs| - 1], wx, wy, wz, id0);
      if Exceeds(p, rs[|rs| - 1], wx, wy, wz) then rs[|rs| - 1].id else prev
  }

  /**
   * Later resources win: a cell ends with the id of the last resource whose
   * noise exceeds its threshold there, and keeps its id when none does.
   */
  lemma {:induction false} LastResourceWins(p: Params, rs: seq<Resource>, wx: int, wy: int, wz: int, id0: int)
    requires ResourcesWellScaled(rs)
    ensures (forall i :: 0 <= i < |rs| ==> !Exceeds(p, rs[i], wx, wy, wz)) ==>
              ResourceId(p, rs, wx, wy, wz, id0) == id0
    ensures forall i :: 0 <= i < |rs| && Exceeds(p, rs[i], wx, wy, wz) &&
                        (forall j :: i < j < |rs| ==> !Exceeds(p, rs[j], wx, wy, wz)) ==>
              ResourceId(p, rs, wx, wy, wz, id0) == rs[i].id
  {
    if rs != [] {
      var front := rs[..|rs| - 1];
      assert forall i :: 0 <= i < |front| ==> front[i] == rs[i];
      LastResourceWins(p, front, wx, wy, wz, id0);
    }
  }

  // ---------------------------------------------------------------------
  // Terrain
  // ---------------------------------------------------------------------

  /** `Math.max(0, Math.min(raw, h - 1))`. */
  function ClampHeight(raw: int, h: nat): (c: int)
    ensures 0 <= c && (h > 0 ==> c < h)
    ensures 0 <= raw < h ==> c == raw
    ensures raw < 0 ==> c == 0
    ensures raw >= h ==> c == Max(0, h - 1)
  {
    Max(0, Min(raw, h - 1))
  }

  /**
   * The surface height of the world column (wx, wz) in a chunk of height `h`:
   * `floor(h * (offset + magnitude * noise))`, clamped into the chunk.
   */
  function ColumnHeight(p: Params, h: nat, wx: int, wz: int): (c: int)
    requires p.terrain.scale != 0.0
    ensures 0 <= c && (h > 0 ==> c < h)
  {
    var value := p.noise2(wx as real / p.terrain.scale, wz as real / p.terrain.scale);
    var scaled := p.terrain.offset + p.terrain.magnitude * value;
    ClampHeight((h as real * scaled).Floor, h)
  }

  /** The id the terrain fill leaves at height `y` of a column whose surface is `ht`. */
  function TerrainId(cat: Catalog, ht: int, y: int, id: int): int
  {
    if y < ht && id == cat.empty then cat.dirt
    else if y == ht then cat.grass
    else if y > ht then cat.empty
    else id
  }

  /** The id of local cell (x, y, z) of chunk (cx, cz) after the resource and terrain passes over an empty grid. */
  function GeneratedId(p: Params, w: nat, h: nat, cx: int, cz: int, x: int, y: int, z: int): int
    requires ParamsOk(p)
  {
    var wx, wz := cx * w + x, cz * w + z;
    TerrainId(p.catalog, ColumnHeight(p, h, wx, wz), y,
              ResourceId(p, p.catalog.resources, wx, y, wz, p.catalog.empty))
  }

  /**
   * The column profile the terrain fill produces: grass at the surface,
   * air above it, and below it dirt where the cell was empty and the
   * earlier id (a resource) where it was not.
   */
  lemma TerrainProfile(cat: Catalog, ht: int, y: int, id: int)
    ensures y == ht ==> TerrainId(cat, ht, y, id) == cat.grass
    ensures y > ht ==> TerrainId(cat, ht, y, id) == cat.empty
    ensures y < ht ==> TerrainId(cat, ht, y, id) == (if id == cat.empty then cat.dirt else id)
  {
  }

  /**
   * Adjacent chunks agree on the surface along their shared border: the
   * height depends on world coordinates only.
   */
  lemma SeamContinuity(p: Params, w: nat, h: nat, cx: int, cz: int, x: int, z: int, cx': int, cz': int, x': int, z': int)
    requires ParamsOk(p)
    requires cx * w + x == cx' * w + x' && cz * w + z == cz' * w + z'
    ensures forall y :: GeneratedId(p, w, h, cx, cz, x, y, z) == GeneratedId(p, w, h, cx', cz', x', y, z')
  {
  }

  // ---------------------------------------------------------------------
  // Meshing: the obscured test and the instance-slot numbering
  // ---------------------------------------------------------------------

  /** The cell at (x, y, z) is inside the chunk and not empty. */
  predicate Solid(g: Grid, w: nat, h: nat, e: int, x: int, y: int, z: int)
    requires Shaped(g, w, h)
  {
    InBox(w, h, x, y, z) && g[x][y][z].id != e
  }

  /** The six face neighbours of (x, y, z): up, down, +x, -x, +z, -z. */
  function Neighbours(x: int, y: int, z: int): seq<(int, int, int)>
  {
    [(x, y + 1, z), (x, y - 1, z), (x + 1, y, z), (x - 1, y, z), (x, y, z + 1), (x, y, z - 1)]
  }

  /** All six face neighbours are solid; a neighbour outside the chunk counts as empty. */
  predicate Obscured(g: Grid, w: nat, h: nat, e: int, x: int, y: int, z: int)
    requires Shaped(g, w, h)
  {
    && Solid(g, w, h, e, x, y + 1, z) && Solid(g, w, h, e, x, y - 1, z)
    && Solid(g, w, h, e, x + 1, y, z) && Solid(g, w, h, e, x - 1, y, z)
    && Solid(g, w, h, e, x, y, z + 1) && Solid(g, w, h, e, x, y, z - 1)
  }

  /**
   * A cell is exposed (not obscured) exactly when some face neighbour is
   * empty or lies outside the chunk.
   */
  lemma ExposedIffOpenFace(g: Grid, w: nat, h: nat, e: int, x: int, y: int, z: int)
    requires Shaped(g, w, h)
    ensures !Obscured(g, w, h, e, x, y, z) <==>
              exists n :: n in Neighbours(x, y, z) && !Solid(g, w, h, e, n.0, n.1, n.2)
  {
    var ns := Neighbours(x, y, z);
    if !Obscured(g, w, h, e, x, y, z) {
      if !Solid(g, w, h, e, x, y + 1, z) { assert ns[0] in ns; }
      else if !Solid(g, w, h, e, x, y - 1, z) { assert ns[1] in ns; }
      else if !Solid(g, w, h, e, x + 1, y, z) { assert ns[2] in ns; }
      else if !Solid(g, w, h, e, x - 1, y, z) { assert ns[3] in ns; }
      else if !Solid(g, w, h, e, x, y, z + 1) { assert ns[4] in ns; }
      else { assert ns[5] in ns; }
    } else {
      forall n | n in ns
        ensures Solid(g, w, h, e, n.0, n.1, n.2)
      {
      }
    }
  }

  /** The cell at (x, y, z) is of non-empty kind `k` and is drawn (not obscured). */
  predicate Drawn(g: Grid, w: nat, h: nat, e: int, k: int, x: int, y: int, z: int)
    requires Shaped(g, w, h)
  {
    InBox(w, h, x, y, z) && g[x][y][z].id == k && k != e && !Obscured(g, w, h, e, x, y, z)
  }

  function Ind(b: bool): nat { if b then 1 else 0 }

  /** Drawn cells of kind `k` at (x, y, z') with z' < z. */
  function RowCount(g: Grid, w: nat, h: nat, e: int, k: int, x: nat, y: nat, z: nat): nat
    requires Shaped(g, w, h)
  {
    if z == 0 then 0 else RowCount(g, w, h, e, k, x, y, z - 1) + Ind(Drawn(g, w, h, e, k, x, y, z - 1))
  }

  /** Drawn cells of kind `k` at (x, y', z) with y' < y. */
  function SliceCount(g: Grid, w: nat, h: nat, e: int, k: int, x: nat, y: nat): nat
    requires Shaped(g, w, h)
  {
    if y == 0 then 0 else SliceCount(g, w, h, e, k, x, y - 1) + RowCount(g, w, h, e, k, x, y - 1, w)
  }

  /** Drawn cells of kind `k` at (x', y, z) with x' < x. */
  function GridCount(g: Grid, w: nat, h: nat, e: int, k: int, x: nat): nat
    requires Shaped(g, w, h)
  {
    if x == 0 then 0 else GridCount(g, w, h, e, k, x - 1) + SliceCount(g, w, h, e, k, x - 1, h)
  }

  /** Drawn cells of kind `k` that come before (x, y, z) in x, then y, then z order. */
  function DrawnBefore(g: Grid, w: nat, h: nat, e: int, k: int, x: nat, y: nat, z: nat): nat
    requires Shaped(g, w, h)
  {
    GridCount(g, w, h, e, k, x) + SliceCount(g, w, h, e, k, x, y) + RowCount(g, w, h, e, k, x, y, z)
  }

  /** Moving one cell on in loop order adds that cell if it is drawn. */
  lemma DrawnBeforeNext(g: Grid, w: nat, h: nat, e: int, k: int, x: nat, y: nat, z: nat)
    requires Shaped(g, w, h)
    ensures DrawnBefore(g, w, h, e, k, x, y, z + 1) == DrawnBefore(g, w, h, e, k, x, y, z) + Ind(Drawn(g, w, h, e, k, x, y, z))
  {
  }

  /** The end of a row is the start of the next row. */
  lemma DrawnBeforeRowEnd(g: Grid, w: nat, h: nat, e: int, k: int, x: nat, y: nat)
    requires Shaped(g, w, h)
    ensures DrawnBefore(g, w, h, e, k, x, y, w) == DrawnBefore(g, w, h, e, k, x, y + 1, 0)
  {
  }

  /** The end of a slice is the start of the next slice. */
  lemma DrawnBeforeSliceEnd(g: Grid, w: nat, h: nat, e: int, k: int, x: nat)
    requires Shaped(g, w, h)
    ensures DrawnBefore(g, w, h, e, k, x, h, 0) == DrawnBefore(g, w, h, e, k, x + 1, 0, 0)
  {
  }

  /** The number of instances of kind `k` the meshing pass draws. */
  function KindTotal(g: Grid, w: nat, h: nat, e: int, k: int): nat
    requires Shaped(g, w, h)
  {
    GridCount(g, w, h, e, k, w)
  }

  /** A counter map read with `0` for a kind that has no entry. */
  function Count(counts: map<int, nat>, k: int): nat
  {
    if k in counts then counts[k] else 0
  }

  /** Cell (x, y, z) of `g0` once the meshing pass has numbered it. */
  function MeshedCell(g0: Grid, w: nat, h: nat, e: int, x: int, y: int, z: int): Block
    requires Shaped(g0, w, h) && InBox(w, h, x, y, z)
  {
    var b := g0[x][y][z];
    if Drawn(g0, w, h, e, b.id, x, y, z) then b.(instanceID := Some(DrawnBefore(g0, w, h, e, b.id, x, y, z))) else b
  }

  /**
   * `g1` (with mesh counters `counts`) is what the meshing pass makes of `g0`:
   * ids unchanged; every drawn cell numbered by the drawn cells of its kind
   * before it; every other cell's instance left as it was.
   */
  ghost predicate Meshed(g0: Grid, g1: Grid, counts: map<int, nat>, w: nat, h: nat, e: int)
  {
    && Shaped(g0, w, h) && Shaped(g1, w, h)
    && (forall x, y, z | InBox(w, h, x, y, z) :: g1[x][y][z] == MeshedCell(g0, w, h, e, x, y, z))
    && (forall k :: Count(counts, k) == KindTotal(g0, w, h, e, k))
  }

  // ----- counting lemmas ------------------------------------------------

  lemma {:induction false} RowCountMono(g: Grid, w: nat, h: nat, e: int, k: int, x: nat, y: nat, z1: nat, z2: nat)
    requires Shaped(g, w, h) && z1 < z2
    ensures RowCount(g, w, h, e, k, x, y, z1) + Ind(Drawn(g, w, h, e, k, x, y, z1)) <= RowCount(g, w, h, e, k, x, y, z2)
    decreases z2
  {
    if z1 + 1 < z2 {
      RowCountMono(g, w, h, e, k, x, y, z1, z2 - 1);
    }
  }

  lemma {:induction false} SliceCountMono(g: Grid, w: nat, h: nat, e: int, k: int, x: nat, y1: nat, y2: nat)
    requires Shaped(g, w, h) && y1 < y2
    ensures SliceCount(g, w, h, e, k, x, y1) + RowCount(g, w, h, e, k, x, y1, w) <= SliceCount(g, w, h, e, k, x, y2)
    decreases y2
  {
    if y1 + 1 < y2 {
      SliceCountMono(g, w, h, e, k, x, y1, y2 - 1);
    }
  }

  lemma {:induction false} GridCountMono(g: Grid, w: nat, h: nat, e: int, k: int, x1: nat, x2: nat)
    requires Shaped(g, w, h) && x1 < x2
    ensures GridCount(g, w, h, e, k, x1) + SliceCount(g, w, h, e, k, x1, h) <= GridCount(g, w, h, e, k, x2)
    decreases x2
  {
    if x1 + 1 < x2 {
      GridCountMono(g, w, h, e, k, x1, x2 - 1);
    }
  }

  /** (x1, y1, z1) comes strictly before (x2, y2, z2) in the x, y, z loop order. */
  predicate LoopBefore(x1: int, y1: int, z1: int, x2: int, y2: int, z2: int)
  {
    x1 < x2 || (x1 == x2 && y1 < y2) || (x1 == x2 && y1 == y2 && z1 < z2)
  }

  /** A drawn cell's slot is below the slot of every later cell of its kind. */
  lemma DrawnBeforeStrict(g: Grid, w: nat, h: nat, e: int, k: int, x1: nat, y1: nat, z1: nat, x2: nat, y2: nat, z2: nat)
    requires Shaped(g, w, h)
    requires InBox(w, h, x1, y1, z1) && InBox(w, h, x2, y2, z2)
    requires LoopBefore(x1, y1, z1, x2, y2, z2)
    ensures DrawnBefore(g, w, h, e, k, x1, y1, z1) + Ind(Drawn(g, w, h, e, k, x1, y1, z1))
            <= DrawnBefore(g, w, h, e, k, x2, y2, z2)
  {
    if x1 < x2 {
      RowCountMono(g, w, h, e, k, x1, y1, z1, w);
      if y1 + 1 < h {
        SliceCountMono(g, w, h, e, k, x1, y1, h);
      }
      GridCountMono(g, w, h, e, k, x1, x2);
    } else if y1 < y2 {
      RowCountMono(g, w, h, e, k, x1, y1, z1, w);
      SliceCountMono(g, w, h, e, k, x1, y1, y2);
    } else {
      RowCountMono(g, w, h, e, k, x1, y1, z1, z2);
    }
  }

  /** Two different drawn cells of one kind never share a slot. */
  lemma SlotsDistinct(g: Grid, w: nat, h: nat, e: int, k: int, x1: nat, y1: nat, z1: nat, x2: nat, y2: nat, z2: nat)
    requires Shaped(g, w, h)
    requires Drawn(g, w, h, e, k, x1, y1, z1) && Drawn(g, w, h, e, k, x2, y2, z2)
    requires (x1, y1, z1) != (x2, y2, z2)
    ensures DrawnBefore(g, w, h, e, k, x1, y1, z1) != DrawnBefore(g, w, h, e, k, x2, y2, z2)
  {
    if LoopBefore(x1, y1, z1, x2, y2, z2) {
      DrawnBeforeStrict(g, w, h, e, k, x1, y1, z1, x2, y2, z2);
    } else {
      DrawnBeforeStrict(g, w, h, e, k, x2, y2, z2, x1, y1, z1);
    }
  }

  /** Every drawn cell's slot is below its kind's total, so it fits the kind's instance buffer. */
  lemma SlotBelowTotal(g: Grid, w: nat, h: nat, e: int, k: int, x: nat, y: nat, z: nat)
    requires Shaped(g, w, h) && Drawn(g, w, h, e, k, x, y, z)
    ensures DrawnBefore(g, w, h, e, k, x, y, z) < KindTotal(g, w, h, e, k)
  {
    RowCountMono(g, w, h, e, k, x, y, z, w);
    if y + 1 < h {
      SliceCountMono(g, w, h, e, k, x, y, h);
    }
    if x + 1 < w {
      GridCountMono(g, w, h, e, k, x, w);
    }
  }

  lemma {:induction false} RowHit(g: Grid, w: nat, h: nat, e: int, k: int, x: nat, y: nat, z: nat, n: nat)
    requires Shaped(g, w, h) && n < RowCount(g, w, h, e, k, x, y, z)
    ensures exists z' :: 0 <= z' < z && Drawn(g, w, h, e, k, x, y, z') && RowCount(g, w, h, e, k, x, y, z') == n
  {
    if n < RowCount(g, w, h, e, k, x, y, z - 1) {
      RowHit(g, w, h, e, k, x, y, z - 1, n);
    } else {
      assert Drawn(g, w, h, e, k, x, y, z - 1);
    }
  }

  lemma {:induction false} SliceHit(g: Grid, w: nat, h: nat, e: int, k: int, x: nat, y: nat, n: nat)
    requires Shaped(g, w, h) && n < SliceCount(g, w, h, e, k, x, y)
    ensures exists y', z' :: 0 <= y' < y && 0 <= z' < w && Drawn(g, w, h, e, k, x, y', z') &&
              SliceCount(g, w, h, e, k, x, y') + RowCount(g, w, h, e, k, x, y', z') == n
  {
    var below := SliceCount(g, w, h, e, k, x, y - 1);
    if n < below {
      SliceHit(g, w, h, e, k, x, y - 1, n);
    } else {
      RowHit(g, w, h, e, k, x, y - 1, w, n - below);
    }
  }

  lemma {:induction false} GridHit(g: Grid, w: nat, h: nat, e: int, k: int, x: nat, n: nat)
    requires Shaped(g, w, h) && n < GridCount(g, w, h, e, k, x)
    ensures exists x', y', z' :: 0 <= x' < x && Drawn(g, w, h, e, k, x', y', z') &&
              DrawnBefore(g, w, h, e, k, x', y', z') == n
  {
    var below := GridCount(g, w, h, e, k, x - 1);
    if n < below {
      GridHit(g, w, h, e, k, x - 1, n);
    } else {
      SliceHit(g, w, h, e, k, x - 1, h, n - below);
      var y', z' :| 0 <= y' < h && 0 <= z' < w && Drawn(g, w, h, e, k, x - 1, y', z') &&
                     SliceCount(g, w, h, e, k, x - 1, y') + RowCount(g, w, h, e, k, x - 1, y', z') == n - below;
      assert DrawnBefore(g, w, h, e, k, x - 1, y', z') == n;
    }
  }

  /**
   * The slots of a kind are consecutive from 0: every number below the
   * kind's total is the slot of some drawn cell of that kind.
   */
  lemma SlotsConsecutive(g: Grid, w: nat, h: nat, e: int, k: int, n: nat)
    requires Shaped(g, w, h) && n < KindTotal(g, w, h, e, k)
    ensures exists x, y, z :: Drawn(g, w, h, e, k, x, y, z) && DrawnBefore(g, w, h, e, k, x, y, z) == n
  {
    GridHit(g, w, h, e, k, w, n);
  }

  lemma {:induction false} RowCountBound(g: Grid, w: nat, h: nat, e: int, k: int, x: nat, y: nat, z: nat)
    requires Shaped(g, w, h)
    ensures RowCount(g, w, h, e, k, x, y, z) <= z
  {
    if z > 0 {
      RowCountBound(g, w, h, e, k, x, y, z - 1);
    }
  }

  lemma {:induction false} SliceCountBound(g: Grid, w: nat, h: nat, e: int, k: int, x: nat, y: nat)
    requires Shaped(g, w, h)
    ensures SliceCount(g, w, h, e, k, x, y) <= y * w
  {
    if y > 0 {
      SliceCountBound(g, w, h, e, k, x, y - 1);
      RowCountBound(g, w, h, e, k, x, y - 1, w);
      assert (y - 1) * w + w == y * w;
    }
  }

  lemma {:induction false} GridCountBound(g: Grid, w: nat, h: nat, e: int, k: int, x: nat)
    requires Shaped(g, w, h)
    ensures GridCount(g, w, h, e, k, x) <= x * (h * w)
  {
    if x > 0 {
      GridCountBound(g, w, h, e, k, x - 1);
      SliceCountBound(g, w, h, e, k, x - 1, h);
      assert (x - 1) * (h * w) + h * w == x * (h * w);
    }
  }

  /** No kind draws more instances than the chunk has cells (`maxCount`). */
  lemma KindTotalFits(g: Grid, w: nat, h: nat, e: int, k: int)
    requires Shaped(g, w, h)
    ensures KindTotal(g, w, h, e, k) <= w * h * w
  {
    GridCountBound(g, w, h, e, k, w);
    assert w * (h * w) == w * h * w;
  }

  /**
   * After meshing, the instance slots of one kind are distinct, below the
   * kind's counter, and every number below the counter is used: the slots
   * are exactly 0, 1, ..., count - 1.
   */
  lemma MeshedSlots(g0: Grid, g1: Grid, counts: map<int, nat>, w: nat, h: nat, e: int, k: int)
    requires Meshed(g0, g1, counts, w, h, e)
    ensures forall x, y, z | Drawn(g0, w, h, e, k, x, y, z) ::
              g1[x][y][z].instanceID.Some? && g1[x][y][z].instanceID.value < Count(counts, k)
    ensures forall x1, y1, z1, x2, y2, z2 |
              Drawn(g0, w, h, e, k, x1, y1, z1) && Drawn(g0, w, h, e, k, x2, y2, z2) && (x1, y1, z1) != (x2, y2, z2) ::
              g1[x1][y1][z1].instanceID != g1[x2][y2][z2].instanceID
    ensures forall n: nat | n < Count(counts, k) :: SlotTaken(g0, g1, w, h, e, k, n)
  {
    forall x, y, z | Drawn(g0, w, h, e, k, x, y, z)
      ensures g1[x][y][z].instanceID.Some? && g1[x][y][z].instanceID.value < Count(counts, k)
    {
      SlotBelowTotal(g0, w, h, e, k, x, y, z);
    }
    forall x1, y1, z1, x2, y2, z2 |
      Drawn(g0, w, h, e, k, x1, y1, z1) && Drawn(g0, w, h, e, k, x2, y2, z2) && (x1, y1, z1) != (x2, y2, z2)
      ensures g1[x1][y1][z1].instanceID != g1[x2][y2][z2].instanceID
    {
      SlotsDistinct(g0, w, h, e, k, x1, y1, z1, x2, y2, z2);
    }
    forall n: nat | n < Count(counts, k)
      ensures SlotTaken(g0, g1, w, h, e, k, n)
    {
      SlotUsed(g0, g1, counts, w, h, e, k, n);
    }
  }

  /** Some drawn cell of kind `k` carries slot `n`. */
  ghost predicate SlotTaken(g0: Grid, g1: Grid, w: nat, h: nat, e: int, k: int, n: nat)
    requires Shaped(g0, w, h) && Shaped(g1, w, h)
  {
    exists x, y, z :: Drawn(g0, w, h, e, k, x, y, z) && g1[x][y][z].instanceID == Some(n)
  }

  lemma SlotUsed(g0: Grid, g1: Grid, counts: map<int, nat>, w: nat, h: nat, e: int, k: int, n: nat)
    requires Meshed(g0, g1, counts, w, h, e) && n < Count(counts, k)
    ensures SlotTaken(g0, g1, w, h, e, k, n)
  {
    SlotsConsecutive(g0, w, h, e, k, n);
    var x: nat, y: nat, z: nat :| Drawn(g0, w, h, e, k, x, y, z) && DrawnBefore(g0, w, h, e, k, x, y, z) == n;
    assert Drawn(g0, w, h, e, k, x, y, z) && g1[x][y][z].instanceID == Some(n);
  }

  /** The grid the resource and terrain passes build from an empty chunk at (cx, cz). */
  function GeneratedGrid(p: Params, w: nat, h: nat, cx: int, cz: int): (g: Grid)
    requires ParamsOk(p)
    ensures Shaped(g, w, h)
    ensures forall x, y, z | InBox(w, h, x, y, z) :: g[x][y][z] == Block(GeneratedId(p, w, h, cx, cz, x, y, z), None)
  {
    seq(w, x requires 0 <= x < w =>
      seq(h, y requires 0 <= y < h =>
        seq(w, z requires 0 <= z < w => Block(GeneratedId(p, w, h, cx, cz, x, y, z), None))))
  }

  /** Whether a cell is obscured depends on the ids of the grid only. */
  lemma ObscuredByIds(g0: Grid, g1: Grid, w: nat, h: nat, e: int, x: int, y: int, z: int)
    requires Shaped(g0, w, h) && Shaped(g1, w, h)
    requires forall i, j, k | InBox(w, h, i, j, k) :: g1[i][j][k].id == g0[i][j][k].id
    ensures Obscured(g1, w, h, e, x, y, z) == Obscured(g0, w, h, e, x, y, z)
  {
  }
}
