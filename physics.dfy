/**
 * Collision detection: the broad phase that enumerates every block in the
 * integer box around the player, the stub narrow phase, and the update step
 * that sequences them.
 */
module Physics {
  import opened Common
  import opened Blocks
  import opened Worlds
  import opened Players

  /** The world's blocks as a function of position (see `World.BlockView`). */
  type Lookup = (int, int, int) -> Option<Block>

  /** The inclusive integer box the broad phase walks. */
  datatype Extents = Extents(xMin: int, xMax: int, yMin: int, yMax: int, zMin: int, zMax: int)

  /**
   * The box around a player cylinder of radius `r` and height `h` whose top
   * (the camera position) is at (px, py, pz), so that it spans [py - h, py]
   * vertically: each lower bound is a floor, each upper bound a ceiling.
   */
  function BoxAround(px: real, py: real, pz: real, r: real, h: real): (e: Extents)
    ensures e.xMin as real <= px - r < e.xMin as real + 1.0
    ensures e.xMax as real - 1.0 < px + r <= e.xMax as real
    ensures e.yMin as real <= py - h < e.yMin as real + 1.0
    ensures e.yMax as real - 1.0 < py <= e.yMax as real
    ensures e.zMin as real <= pz - r < e.zMin as real + 1.0
    ensures e.zMax as real - 1.0 < pz + r <= e.zMax as real
    ensures r >= 0.0 && h >= 0.0 ==> e.xMin <= e.xMax && e.yMin <= e.yMax && e.zMin <= e.zMax
  {
    Extents((px - r).Floor, Ceil(px + r), (py - h).Floor, Ceil(py), (pz - r).Floor, Ceil(pz + r))
  }

  /**
   * The candidate filter. `emptyId` is the id the block is compared
   * against: `None` stands for the undefined value the comparison in the
   * source actually sees, which no id equals.
   */
  predicate Passes(b: Block, emptyId: Option<int>): (ok: bool)
    ensures emptyId.None? ==> ok
    ensures emptyId.Some? ==> (ok <==> b.id != emptyId.value)
  {
    emptyId.None? || b.id != emptyId.value
  }

  /** What the broad phase pushes for cell (x, y, z): the block, if the world has one there and it passes. */
  function CellCandidates(look: Lookup, emptyId: Option<int>, x: int, y: int, z: int): seq<Block>
  {
    match look(x, y, z)
    case Some(b) => if Passes(b, emptyId) then [b] else []
    case None => []
  }

  /** The candidates of the z-run (x, y, zLo..zHi), in increasing z. */
  function ZRun(look: Lookup, emptyId: Option<int>, x: int, y: int, zLo: int, zHi: int): seq<Block>
    decreases zHi - zLo
  {
    if zHi < zLo then []
    else ZRun(look, emptyId, x, y, zLo, zHi - 1) + CellCandidates(look, emptyId, x, y, zHi)
  }

  /** The candidates of the slice x over yLo..yHi, in increasing y and then z. */
  function YRun(look: Lookup, emptyId: Option<int>, x: int, yLo: int, yHi: int, zLo: int, zHi: int): seq<Block>
    decreases yHi - yLo
  {
    if yHi < yLo then []
    else YRun(look, emptyId, x, yLo, yHi - 1, zLo, zHi) + ZRun(look, emptyId, x, yHi, zLo, zHi)
  }

  /** The candidates of the box xLo..xHi, in increasing x, then y, then z. */
  function XRun(look: Lookup, emptyId: Option<int>, xLo: int, xHi: int, e: Extents): seq<Block>
    decreases xHi - xLo
  {
    if xHi < xLo then []
    else XRun(look, emptyId, xLo, xHi - 1, e) + YRun(look, emptyId, xHi, e.yMin, e.yMax, e.zMin, e.zMax)
  }

  /** All candidates of the box `e`. */
  function BoxCandidates(look: Lookup, emptyId: Option<int>, e: Extents): seq<Block>
  {
    XRun(look, emptyId, e.xMin, e.xMax, e)
  }

  predicate InExtents(e: Extents, x: int, y: int, z: int)
  {
    e.xMin <= x <= e.xMax && e.yMin <= y <= e.yMax && e.zMin <= z <= e.zMax
  }

  /** Block `b` is what `look` gives at some integer coordinate of the box. */
  ghost predicate FoundIn(look: Lookup, e: Extents, b: Block)
  {
    exists x, y, z :: InExtents(e, x, y, z) && look(x, y, z) == Some(b)
  }

  /** `look` is the world's block lookup. */
  ghost predicate Agrees(look: Lookup, world: World)
    reads world, set c | c in world.children
    requires world.Valid()
  {
    forall x, y, z {:trigger world.GetBlock(x, y, z)} :: look(x, y, z) == world.GetBlock(x, y, z)
  }

  /** Block `b` is what the world holds at some integer coordinate of the box. */
  ghost predicate HeldIn(world: World, e: Extents, b: Block)
    reads world, set c | c in world.children
    requires world.Valid()
  {
    exists x, y, z :: InExtents(e, x, y, z) && world.GetBlock(x, y, z) == Some(b)
  }

  // ---------------------------------------------------------------------
  // Soundness: every candidate is a passing block found in the box.
  // ---------------------------------------------------------------------

  lemma {:induction false} ZRunSound(look: Lookup, emptyId: Option<int>, e: Extents, x: int, y: int, zLo: int, zHi: int)
    requires e.xMin <= x <= e.xMax && e.yMin <= y <= e.yMax && e.zMin <= zLo && zHi <= e.zMax
    ensures forall b | b in ZRun(look, emptyId, x, y, zLo, zHi) :: Passes(b, emptyId) && FoundIn(look, e, b)
    decreases zHi - zLo
  {
    if zHi >= zLo {
      ZRunSound(look, emptyId, e, x, y, zLo, zHi - 1);
      assert InExtents(e, x, y, zHi);
    }
  }

  lemma {:induction false} YRunSound(look: Lookup, emptyId: Option<int>, e: Extents, x: int, yLo: int, yHi: int)
    requires e.xMin <= x <= e.xMax && e.yMin <= yLo && yHi <= e.yMax
    ensures forall b | b in YRun(look, emptyId, x, yLo, yHi, e.zMin, e.zMax) :: Passes(b, emptyId) && FoundIn(look, e, b)
    decreases yHi - yLo
  {
    if yHi >= yLo {
      YRunSound(look, emptyId, e, x, yLo, yHi - 1);
      ZRunSound(look, emptyId, e, x, yHi, e.zMin, e.zMax);
    }
  }

  lemma {:induction false} XRunSound(look: Lookup, emptyId: Option<int>, e: Extents, xLo: int, xHi: int)
    requires e.xMin <= xLo && xHi <= e.xMax
    ensures forall b | b in XRun(look, emptyId, xLo, xHi, e) :: Passes(b, emptyId) && FoundIn(look, e, b)
    decreases xHi - xLo
  {
    if xHi >= xLo {
      XRunSound(look, emptyId, e, xLo, xHi - 1);
      YRunSound(look, emptyId, e, xHi, e.yMin, e.yMax);
    }
  }

  /** Every candidate passes the filter and is what the lookup gives at some coordinate of the box. */
  lemma CandidatesSound(look: Lookup, emptyId: Option<int>, e: Extents)
    ensures forall b | b in BoxCandidates(look, emptyId, e) :: Passes(b, emptyId) && FoundIn(look, e, b)
  {
    XRunSound(look, emptyId, e, e.xMin, e.xMax);
  }

  // ---------------------------------------------------------------------
  // Completeness: every passing block in the box is a candidate.
  // ---------------------------------------------------------------------

  lemma {:induction false} ZRunComplete(look: Lookup, emptyId: Option<int>, x: int, y: int, zLo: int, zHi: int, z: int)
    requires zLo <= z <= zHi
    requires look(x, y, z).Some? && Passes(look(x, y, z).value, emptyId)
    ensures look(x, y, z).value in ZRun(look, emptyId, x, y, zLo, zHi)
    decreases zHi - zLo
  {
    if z < zHi {
      ZRunComplete(look, emptyId, x, y, zLo, zHi - 1, z);
    }
  }

  lemma {:induction false} YRunComplete(look: Lookup, emptyId: Option<int>, x: int, yLo: int, yHi: int, zLo: int, zHi: int, y: int, z: int)
    requires yLo <= y <= yHi && zLo <= z <= zHi
    requires look(x, y, z).Some? && Passes(look(x, y, z).value, emptyId)
    ensures look(x, y, z).value in YRun(look, emptyId, x, yLo, yHi, zLo, zHi)
    decreases yHi - yLo
  {
    if y < yHi {
      YRunComplete(look, emptyId, x, yLo, yHi - 1, zLo, zHi, y, z);
    } else {
      ZRunComplete(look, emptyId, x, y, zLo, zHi, z);
    }
  }

  lemma {:induction false} XRunComplete(look: Lookup, emptyId: Option<int>, xLo: int, xHi: int, e: Extents, x: int, y: int, z: int)
    requires xLo <= x <= xHi && e.yMin <= y <= e.yMax && e.zMin <= z <= e.zMax
    requires look(x, y, z).Some? && Passes(look(x, y, z).value, emptyId)
    ensures look(x, y, z).value in XRun(look, emptyId, xLo, xHi, e)
    decreases xHi - xLo
  {
    if x < xHi {
      XRunComplete(look, emptyId, xLo, xHi - 1, e, x, y, z);
    } else {
      YRunComplete(look, emptyId, x, e.yMin, e.yMax, e.zMin, e.zMax, y, z);
    }
  }

  /** Every block the lookup gives at a coordinate of the box, if it passes the filter, is a candidate. */
  lemma CandidatesComplete(look: Lookup, emptyId: Option<int>, e: Extents, x: int, y: int, z: int)
    requires InExtents(e, x, y, z)
    requires look(x, y, z).Some? && Passes(look(x, y, z).value, emptyId)
    ensures look(x, y, z).value in BoxCandidates(look, emptyId, e)
  {
    XRunComplete(look, emptyId, e.xMin, e.xMax, e, x, y, z);
  }

  // ---------------------------------------------------------------------
  // Count: at most one candidate per cell of the box.
  // ---------------------------------------------------------------------

  lemma MulAssoc(a: nat, b: nat, c: nat)
    ensures a * (b * c) == a * b * c
  {
  }

  lemma {:induction false} ZRunBound(look: Lookup, emptyId: Option<int>, x: int, y: int, zLo: int, zHi: int)
    ensures |ZRun(look, emptyId, x, y, zLo, zHi)| <= Side(zLo, zHi)
    decreases zHi - zLo
  {
    if zHi >= zLo {
      ZRunBound(look, emptyId, x, y, zLo, zHi - 1);
    }
  }

  lemma {:induction false} YRunBound(look: Lookup, emptyId: Option<int>, x: int, yLo: int, yHi: int, zLo: int, zHi: int)
    ensures |YRun(look, emptyId, x, yLo, yHi, zLo, zHi)| <= Side(yLo, yHi) * Side(zLo, zHi)
    decreases yHi - yLo
  {
    if yHi >= yLo {
      YRunBound(look, emptyId, x, yLo, yHi - 1, zLo, zHi);
      ZRunBound(look, emptyId, x, yHi, zLo, zHi);
      MulSucc(Side(yLo, yHi - 1), Side(zLo, zHi));
    }
  }

  lemma {:induction false} XRunBound(look: Lookup, emptyId: Option<int>, xLo: int, xHi: int, e: Extents)
    ensures |XRun(look, emptyId, xLo, xHi, e)| <= Side(xLo, xHi) * (Side(e.yMin, e.yMax) * Side(e.zMin, e.zMax))
    decreases xHi - xLo
  {
    if xHi >= xLo {
      XRunBound(look, emptyId, xLo, xHi - 1, e);
      YRunBound(look, emptyId, xHi, e.yMin, e.yMax, e.zMin, e.zMax);
      MulSucc(Side(xLo, xHi - 1), Side(e.yMin, e.yMax) * Side(e.zMin, e.zMax));
    }
  }

  /** The broad phase yields at most one candidate per cell of the box. */
  lemma CandidatesBound(look: Lookup, emptyId: Option<int>, e: Extents)
    ensures |BoxCandidates(look, emptyId, e)| <= Side(e.xMin, e.xMax) * Side(e.yMin, e.yMax) * Side(e.zMin, e.zMax)
  {
    XRunBound(look, emptyId, e.xMin, e.xMax, e);
    MulAssoc(Side(e.xMin, e.xMax), Side(e.yMin, e.yMax), Side(e.zMin, e.zMax));
  }

  // ---------------------------------------------------------------------
  // The same facts about the world's own lookup.
  // ---------------------------------------------------------------------

  /**
   * Over the world's blocks: every candidate passes the filter and is what
   * `getBlock` returns at some integer coordinate of the box, and every
   * passing block `getBlock` returns in the box is a candidate; coordinates
   * where it returns nothing contribute nothing.
   */
  lemma WorldCandidates(world: World, emptyId: Option<int>, e: Extents)
    requires world.Valid()
    ensures forall b | b in BoxCandidates(world.BlockView(), emptyId, e) :: Passes(b, emptyId) && HeldIn(world, e, b)
    ensures forall x, y, z | InExtents(e, x, y, z) && world.GetBlock(x, y, z).Some? ::
              Passes(world.GetBlock(x, y, z).value, emptyId) ==>
                world.GetBlock(x, y, z).value in BoxCandidates(world.BlockView(), emptyId, e)
  {
    var look := world.BlockView();
    CandidatesSound(look, emptyId, e);
    forall b | b in BoxCandidates(look, emptyId, e)
      ensures HeldIn(world, e, b)
    {
      var x, y, z :| InExtents(e, x, y, z) && look(x, y, z) == Some(b);
      assert world.GetBlock(x, y, z) == look(x, y, z);
    }
    forall x, y, z | InExtents(e, x, y, z) && world.GetBlock(x, y, z).Some? &&
                     Passes(world.GetBlock(x, y, z).value, emptyId)
      ensures world.GetBlock(x, y, z).value in BoxCandidates(look, emptyId, e)
    {
      CandidatesComplete(look, emptyId, e, x, y, z);
    }
  }

  // ---------------------------------------------------------------------
  // The filter as written and as intended.
  // ---------------------------------------------------------------------

  /**
   * As written, the filter compares against a field block records do not
   * have, so an empty block the world holds inside the box is a candidate.
   */
  lemma AsWrittenKeepsEmpty(world: World, e: Extents, x: int, y: int, z: int)
    requires world.Valid()
    requires InExtents(e, x, y, z)
    requires world.GetBlock(x, y, z).Some? && world.GetBlock(x, y, z).value.id == world.params.catalog.empty
    ensures world.GetBlock(x, y, z).value in BoxCandidates(world.BlockView(), None, e)
    ensures exists b | b in BoxCandidates(world.BlockView(), None, e) :: b.id == world.params.catalog.empty
  {
    CandidatesComplete(world.BlockView(), None, e, x, y, z);
  }

  /**
   * With the comparison against the catalog's empty id, the candidates are
   * exactly the non-empty blocks the world holds in the box.
   */
  lemma SolidCandidates(world: World, e: Extents)
    requires world.Valid()
    ensures forall b | b in BoxCandidates(world.BlockView(), Some(world.params.catalog.empty), e) ::
              b.id != world.params.catalog.empty && HeldIn(world, e, b)
    ensures forall x, y, z | InExtents(e, x, y, z) && world.GetBlock(x, y, z).Some? ::
              world.GetBlock(x, y, z).value.id != world.params.catalog.empty ==>
                world.GetBlock(x, y, z).value in BoxCandidates(world.BlockView(), Some(world.params.catalog.empty), e)
  {
    WorldCandidates(world, Some(world.params.catalog.empty), e);
  }

  /** The narrow phase: a sub-list of the candidates; the stub keeps none of them. */
  function NarrowPhase(candidates: seq<Block>, player: Player): (collisions: seq<Block>)
    ensures forall b | b in collisions :: b in candidates
    ensures |collisions| == 0
  {
    []
  }

  /** The physics system. It holds no state. */
  class Physics {

    constructor()
    {
    }

    /** The innermost loop: the candidates of the cells (x, y, zLo..zHi), in increasing z. */
    method CollectRun(world: World, ghost look: Lookup, emptyId: Option<int>, x: int, y: int, zLo: int, zHi: int)
      returns (run: seq<Block>)
      requires world.Valid() && Agrees(look, world)
      ensures run == ZRun(look, emptyId, x, y, zLo, zHi)
    {
      run := [];
      var z := zLo;
      while z <= zHi
        invariant zLo <= z <= Max(zLo, zHi + 1)
        invariant run == ZRun(look, emptyId, x, y, zLo, z - 1)
        decreases zHi - z
      {
        var block := world.GetBlock(x, y, z);
        if block.Some? && Passes(block.value, emptyId) {
          run := run + [block.value];
        }
        z := z + 1;
      }
    }

    /** The middle loop: the candidates of the slice x over yLo..yHi, in increasing y and then z. */
    method CollectSlice(world: World, ghost look: Lookup, emptyId: Option<int>, x: int, yLo: int, yHi: int, zLo: int, zHi: int)
      returns (slice: seq<Block>)
      requires world.Valid() && Agrees(look, world)
      ensures slice == YRun(look, emptyId, x, yLo, yHi, zLo, zHi)
    {
      slice := [];
      var y := yLo;
      while y <= yHi
        invariant yLo <= y <= Max(yLo, yHi + 1)
        invariant slice == YRun(look, emptyId, x, yLo, y - 1, zLo, zHi)
        decreases yHi - y
      {
        var run := CollectRun(world, look, emptyId, x, y, zLo, zHi);
        slice := slice + run;
        y := y + 1;
      }
    }

    /**
     * The outer loop: walks the box cell by cell, in increasing x, then y,
     * then z, and collects the blocks that pass the filter against `emptyId`.
     */
    method CollectBox(world: World, ghost look: Lookup, e: Extents, emptyId: Option<int>) returns (candidates: seq<Block>)
      requires world.Valid() && Agrees(look, world)
      ensures candidates == BoxCandidates(look, emptyId, e)
    {
      candidates := [];
      var x := e.xMin;
      while x <= e.xMax
        invariant e.xMin <= x <= Max(e.xMin, e.xMax + 1)
        invariant candidates == XRun(look, emptyId, e.xMin, x - 1, e)
        decreases e.xMax - x
      {
        var slice := CollectSlice(world, look, emptyId, x, e.yMin, e.yMax, e.zMin, e.zMax);
        assert XRun(look, emptyId, e.xMin, x, e) == candidates + slice;
        candidates := candidates + slice;
        x := x + 1;
      }
    }

    /**
     * The broad phase as written: the box around the player, every block the
     * world holds in it, empty ones included.
     */
    method BroadPhase(player: Player, world: World) returns (candidates: seq<Block>)
      requires world.Valid()
      ensures candidates == BoxCandidates(world.BlockView(), None,
                                          BoxAround(player.posX, player.posY, player.posZ, player.radius, player.height))
    {
      var extents := BoxAround(player.posX, player.posY, player.posZ, player.radius, player.height);
      candidates := CollectBox(world, world.BlockView(), extents, None);
    }

    /** The broad phase with the empty filter as intended: the non-empty blocks of the box around the player. */
    method BroadPhaseSolid(player: Player, world: World) returns (candidates: seq<Block>)
      requires world.Valid()
      ensures candidates == BoxCandidates(world.BlockView(), Some(world.params.catalog.empty),
                                          BoxAround(player.posX, player.posY, player.posZ, player.radius, player.height))
    {
      var extents := BoxAround(player.posX, player.posY, player.posZ, player.radius, player.height);
      candidates := CollectBox(world, world.BlockView(), extents, Some(world.params.catalog.empty));
    }

    /**
     * Runs the broad phase as written and the narrow phase. The narrow phase
     * never reports a collision, so the branch that would resolve collisions
     * is proved unreachable (the `assert false` below), and neither the
     * player nor the world changes.
     */
    method DetectCollisions(player: Player, world: World)
      requires world.Valid()
      ensures unchanged(player) && unchanged(world)
    {
      var candidates := BroadPhase(player, world);
      var collisions := NarrowPhase(candidates, player);
      if |collisions| > 0 {
        assert false;
      }
    }

    /** Advances the simulation by `dt`: collision detection only. */
    method Update(dt: real, player: Player, world: World)
      requires world.Valid()
      ensures unchanged(player) && unchanged(world)
    {
      DetectCollisions(player, world);
    }
  }
}
