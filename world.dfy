/**
 * The world: the list of loaded chunks, streamed in and out around the
 * player, and block lookup in world coordinates.
 */
module Worlds {
  import opened Common
  import opened Blocks
  import opened ChunkSpec
  import opened Chunks
  import opened Streaming
  import opened Players

  /** The `userData` coordinates of a list of chunks, in list order. */
  function Coordinates(cs: seq<WorldChunk>): (r: seq<ChunkPos>)
    ensures |r| == |cs|
  {
    seq(|cs|, i requires 0 <= i < |cs| => (cs[i].cx, cs[i].cz))
  }

  /** `children.find(...)`: the first chunk of `cs` at (x, z). */
  function FindChunk(cs: seq<WorldChunk>, x: int, z: int): (r: Option<WorldChunk>)
    ensures r.None? <==> (x, z) !in Coordinates(cs)
    ensures r.Some? ==> exists i :: 0 <= i < |cs| && cs[i] == r.value && (x, z) == (cs[i].cx, cs[i].cz) &&
                                    (x, z) !in Coordinates(cs[..i])
  {
    if cs == [] then None
    else if cs[0].cx == x && cs[0].cz == z then
      assert Coordinates(cs[..0]) == [] && Coordinates(cs)[0] == (x, z);
      Some(cs[0])
    else
      var r := FindChunk(cs[1..], x, z);
      assert Coordinates(cs) == [(cs[0].cx, cs[0].cz)] + Coordinates(cs[1..]);
      if r.Some? then
        var i :| 0 <= i < |cs[1..]| && cs[1..][i] == r.value && (x, z) == (cs[1..][i].cx, cs[1..][i].cz) &&
                 (x, z) !in Coordinates(cs[1..][..i]);
        assert cs[..i + 1] == [cs[0]] + cs[1..][..i];
        assert Coordinates(cs[..i + 1]) == [(cs[0].cx, cs[0].cz)] + Coordinates(cs[1..][..i]);
        r
      else r
  }

  /** `Object3D.remove`: drops the first occurrence of `c`, if any. */
  function RemoveChild(cs: seq<WorldChunk>, c: WorldChunk): seq<WorldChunk>
  {
    if cs == [] then []
    else if cs[0] == c then cs[1..]
    else [cs[0]] + RemoveChild(cs[1..], c)
  }

  /** The coordinates are exactly those of the chunks, one per chunk. */
  lemma CoordinatesMembers(cs: seq<WorldChunk>)
    ensures forall p :: p in Coordinates(cs) <==> exists c :: c in cs && p == (c.cx, c.cz)
  {
    forall p
      ensures p in Coordinates(cs) <==> exists c :: c in cs && p == (c.cx, c.cz)
    {
      if p in Coordinates(cs) {
        var i :| 0 <= i < |cs| && Coordinates(cs)[i] == p;
        assert cs[i] in cs;
      }
      if exists c :: c in cs && p == (c.cx, c.cz) {
        var c :| c in cs && p == (c.cx, c.cz);
        var i :| 0 <= i < |cs| && cs[i] == c;
        assert Coordinates(cs)[i] == p;
      }
    }
  }

  /** `indexOf`: the position of the first occurrence of `c` in `cs`. */
  function FirstIndex(cs: seq<WorldChunk>, c: WorldChunk): (i: nat)
    requires c in cs
    ensures i < |cs| && cs[i] == c && c !in cs[..i]
  {
    if cs[0] == c then 0
    else
      var j := FirstIndex(cs[1..], c);
      assert cs[..j + 1] == [cs[0]] + cs[1..][..j];
      j + 1
  }

  /**
   * `remove` takes out the first occurrence of the chunk and keeps the
   * order of the rest; a chunk that is not a child leaves the list as it is.
   */
  lemma {:induction false} RemoveChildFirst(cs: seq<WorldChunk>, c: WorldChunk)
    ensures c !in cs ==> RemoveChild(cs, c) == cs
    ensures c in cs ==> RemoveChild(cs, c) == cs[..FirstIndex(cs, c)] + cs[FirstIndex(cs, c) + 1..]
  {
    if cs != [] && cs[0] != c {
      RemoveChildFirst(cs[1..], c);
      if c in cs {
        var j := FirstIndex(cs[1..], c);
        assert cs[..j + 1] == [cs[0]] + cs[1..][..j];
        assert cs[j + 2..] == cs[1..][j + 1..];
      } else {
        assert cs == [cs[0]] + cs[1..];
      }
    }
  }

  /** The chunks of `cs` that are not in `s`, in order. */
  function Without(cs: seq<WorldChunk>, s: set<WorldChunk>): seq<WorldChunk>
  {
    if cs == [] then [] else (if cs[0] in s then [] else [cs[0]]) + Without(cs[1..], s)
  }

  /** The chunks of `cs` whose coordinate is in `visible`, in order. */
  function Kept(cs: seq<WorldChunk>, visible: seq<ChunkPos>): (r: seq<WorldChunk>)
    ensures forall c | c in r :: c in cs && (c.cx, c.cz) in visible
    ensures forall c | c in cs && (c.cx, c.cz) in visible :: c in r
  {
    if cs == [] then [] else (if (cs[0].cx, cs[0].cz) in visible then [cs[0]] else []) + Kept(cs[1..], visible)
  }

  /** `chunksToRemove`: the chunks of `cs` whose coordinate is not in `visible`, in order. */
  function Dropped(cs: seq<WorldChunk>, visible: seq<ChunkPos>): (r: seq<WorldChunk>)
    ensures forall c | c in r :: c in cs && (c.cx, c.cz) !in visible
    ensures forall c | c in cs && (c.cx, c.cz) !in visible :: c in r
  {
    if cs == [] then [] else (if (cs[0].cx, cs[0].cz) in visible then [] else [cs[0]]) + Dropped(cs[1..], visible)
  }

  function Elems(s: seq<WorldChunk>): set<WorldChunk>
  {
    set c | c in s
  }

  lemma {:induction false} WithoutIgnoresAbsent(cs: seq<WorldChunk>, s: set<WorldChunk>, c: WorldChunk)
    requires c !in cs
    ensures Without(cs, s + {c}) == Without(cs, s)
  {
    if cs != [] {
      WithoutIgnoresAbsent(cs[1..], s, c);
    }
  }

  /** Removing one more distinct chunk by identity is filtering it out. */
  lemma {:induction false} RemoveChildWithout(cs: seq<WorldChunk>, s: set<WorldChunk>, c: WorldChunk)
    requires NoDuplicates(cs) && c !in s
    ensures RemoveChild(Without(cs, s), c) == Without(cs, s + {c})
  {
    if cs != [] {
      assert NoDuplicates(cs[1..]);
      if cs[0] == c {
        assert c !in cs[1..];
        WithoutIgnoresAbsent(cs[1..], s, c);
      } else {
        RemoveChildWithout(cs[1..], s, c);
        var w := Without(cs[1..], s);
        if cs[0] !in s {
          assert Without(cs, s) == [cs[0]] + w;
          assert ([cs[0]] + w)[1..] == w;
          assert RemoveChild([cs[0]] + w, c) == [cs[0]] + RemoveChild(w, c);
          assert Without(cs, s + {c}) == [cs[0]] + Without(cs[1..], s + {c});
        } else {
          assert Without(cs, s) == w;
          assert Without(cs, s + {c}) == Without(cs[1..], s + {c});
        }
      }
    }
  }

  /** Filtering out the dropped chunks leaves the kept ones. */
  lemma {:induction false} WithoutDropped(cs: seq<WorldChunk>, visible: seq<ChunkPos>, s: set<WorldChunk>)
    requires forall c :: c in cs ==> (c in s <==> (c.cx, c.cz) !in visible)
    ensures Without(cs, s) == Kept(cs, visible)
  {
    if cs != [] {
      WithoutDropped(cs[1..], visible, s);
    }
  }

  lemma {:induction false} WithoutNothing(cs: seq<WorldChunk>)
    ensures Without(cs, {}) == cs
  {
    if cs != [] {
      WithoutNothing(cs[1..]);
    }
  }

  lemma {:induction false} KeptNoDuplicates(cs: seq<WorldChunk>, visible: seq<ChunkPos>)
    requires NoDuplicates(cs)
    ensures NoDuplicates(Kept(cs, visible))
  {
    if cs != [] {
      assert NoDuplicates(cs[1..]);
      KeptNoDuplicates(cs[1..], visible);
      var rest := Kept(cs[1..], visible);
      if (cs[0].cx, cs[0].cz) in visible {
        assert cs[0] !in rest;
        assert Kept(cs, visible) == [cs[0]] + rest;
      }
    }
  }

  /** Keeping some chunks keeps their coordinates free of repeats. */
  lemma {:induction false} KeptCoordinatesNoDuplicates(cs: seq<WorldChunk>, visible: seq<ChunkPos>)
    requires NoDuplicates(Coordinates(cs))
    ensures NoDuplicates(Coordinates(Kept(cs, visible)))
  {
    if cs != [] {
      var head := (cs[0].cx, cs[0].cz);
      assert Coordinates(cs) == [head] + Coordinates(cs[1..]);
      assert Coordinates(cs[1..]) == Coordinates(cs)[1..];
      KeptCoordinatesNoDuplicates(cs[1..], visible);
      var rest := Kept(cs[1..], visible);
      if head in visible {
        assert Kept(cs, visible) == [cs[0]] + rest;
        assert Coordinates(Kept(cs, visible)) == [head] + Coordinates(rest);
        forall i | 0 <= i < |rest|
          ensures (rest[i].cx, rest[i].cz) != head
        {
          assert rest[i] in cs[1..];
          var j :| 0 <= j < |cs[1..]| && cs[1..][j] == rest[i];
          assert Coordinates(cs)[j + 1] == (rest[i].cx, rest[i].cz);
          assert Coordinates(cs)[0] == head;
        }
      } else {
        assert Kept(cs, visible) == rest;
      }
    }
  }

  lemma {:induction false} DroppedNoDuplicates(cs: seq<WorldChunk>, visible: seq<ChunkPos>)
    requires NoDuplicates(cs)
    ensures NoDuplicates(Dropped(cs, visible))
  {
    if cs != [] {
      assert NoDuplicates(cs[1..]);
      DroppedNoDuplicates(cs[1..], visible);
      var rest := Dropped(cs[1..], visible);
      if (cs[0].cx, cs[0].cz) !in visible {
        assert cs[0] !in rest;
        assert Dropped(cs, visible) == [cs[0]] + rest;
      }
    }
  }

  /** A chunk as a block lookup sees it: its coordinate, whether it is loaded, and its grid. */
  datatype ChunkView = ChunkView(cx: int, cz: int, loaded: bool, data: Grid)

  /** The chunks as values, in order. */
  function Views(cs: seq<WorldChunk>): (vs: seq<ChunkView>)
    reads set c | c in cs
    ensures |vs| == |cs|
  {
    if cs == [] then [] else [ChunkView(cs[0].cx, cs[0].cz, cs[0].loaded, cs[0].data)] + Views(cs[1..])
  }

  /**
   * The block lookup on values: the first chunk at the chunk coordinate of
   * `co` answers if it is loaded and the local coordinate is inside it.
   */
  function ViewLookup(vs: seq<ChunkView>, w: nat, h: nat, co: Coords): Option<Block>
  {
    if vs == [] then None
    else if vs[0].cx == co.chunkX && vs[0].cz == co.chunkZ then
      if vs[0].loaded && Shaped(vs[0].data, w, h) && InBox(w, h, co.blockX, co.blockY, co.blockZ)
      then Some(vs[0].data[co.blockX][co.blockY][co.blockZ])
      else None
    else ViewLookup(vs[1..], w, h, co)
  }

  /** On chunks of one size whose loaded ones are well formed, the lookup on values agrees with the chunk search. */
  lemma {:induction false} ViewLookupFinds(cs: seq<WorldChunk>, w: nat, h: nat, co: Coords)
    requires forall c | c in cs :: c.width == w && c.height == h && (c.loaded ==> c.Valid())
    ensures ViewLookup(Views(cs), w, h, co) ==
              match FindChunk(cs, co.chunkX, co.chunkZ)
              case None => None
              case Some(c) => if c.loaded then c.GetBlock(co.blockX, co.blockY, co.blockZ) else None
  {
    if cs != [] {
      assert Views(cs)[1..] == Views(cs[1..]);
      if !(cs[0].cx == co.chunkX && cs[0].cz == co.chunkZ) {
        ViewLookupFinds(cs[1..], w, h, co);
      }
    }
  }

  class World {
    /** `chunkSize.width` and `chunkSize.height`. */
    const width: nat
    const height: nat
    /** Chebyshev radius, in chunks, of the loaded neighbourhood. */
    const drawDistance: nat
    /** Whether new chunks are generated later, at idle time. */
    const asyncLoading: bool
    const params: Params
    /** The loaded chunks (the scene-graph children). */
    var children: seq<WorldChunk>

    ghost predicate Valid()
      reads this, set c | c in children
    {
      && width > 0 && ParamsOk(params)
      && NoDuplicates(children)
      && forall c | c in children ::
           && c.width == width && c.height == height && c.params == params
           && (c.loaded ==> c.Valid() && c.HoldsGenerated())
    }

    constructor (width: nat, height: nat, drawDistance: nat, asyncLoading: bool, params: Params)
      requires width > 0 && ParamsOk(params)
      ensures Valid() && children == []
      ensures this.width == width && this.height == height && this.drawDistance == drawDistance
      ensures this.asyncLoading == asyncLoading && this.params == params
    {
      this.width, this.height, this.drawDistance := width, height, drawDistance;
      this.asyncLoading, this.params := asyncLoading, params;
      children := [];
    }

    /**
     * `new World()` with the field initialisers: 32 × 32 chunks, one ring
     * of neighbours, idle-time loading and terrain noise of scale 30,
     * magnitude 1 and offset 0.2. The catalog and the noise functions are
     * parameters.
     */
    constructor Default(catalog: Catalog, noise3: (real, real, real) -> real, noise2: (real, real) -> real)
      requires ResourcesWellScaled(catalog.resources)
      ensures Valid() && children == []
      ensures width == 32 && height == 32 && drawDistance == 1 && asyncLoading
      ensures params == Params(Terrain(30.0, 1.0, 0.2), catalog, noise3, noise2)
    {
      width, height, drawDistance, asyncLoading := 32, 32, 1, true;
      params := Params(Terrain(30.0, 1.0, 0.2), catalog, noise3, noise2);
      children := [];
    }

    function ChildCoords(): seq<ChunkPos>
      reads this
    {
      Coordinates(children)
    }

    /**
     * Replaces every chunk by a freshly generated one at each chunk
     * coordinate of the neighbourhood of (0, 0), x-major.
     */
    method Generate()
      requires Valid()
      modifies this
      ensures Valid()
      ensures ChildCoords() == Neighbourhood(0, 0, drawDistance)
      ensures forall c | c in children :: fresh(c) && c.loaded && c.HoldsGenerated()
    {
      children := [];
      var d: int := drawDistance;
      for x := -d to d + 1
        invariant Valid()
        invariant ChildCoords() == Square(-d, x - 1, -d, d)
        invariant forall c | c in children :: fresh(c) && c.loaded && c.HoldsGenerated()
      {
        GenerateColumn(x, -d, d);
      }
    }

    /** The `z` loop of `generate`: a generated chunk at each (x, z) with zlo <= z <= zhi, in order. */
    method GenerateColumn(x: int, zlo: int, zhi: int)
      requires Valid() && zlo <= zhi + 1
      modifies this
      ensures Valid()
      ensures ChildCoords() == old(ChildCoords()) + Strip(x, zlo, zhi)
      ensures |children| >= |old(children)| && children[..|old(children)|] == old(children)
      ensures forall i | |old(children)| <= i < |children| ::
                fresh(children[i]) && children[i].loaded && children[i].HoldsGenerated()
    {
      ghost var n := |children|;
      for z := zlo to zhi + 1
        invariant Valid()
        invariant ChildCoords() == old(ChildCoords()) + Strip(x, zlo, z - 1)
        invariant |children| >= n && children[..n] == old(children)
        invariant forall i | n <= i < |children| :: fresh(children[i]) && children[i].loaded && children[i].HoldsGenerated()
      {
        var chunk := new WorldChunk(width, height, params, x, z);
        chunk.Generate();
        Add(chunk);
      }
    }

    /** The neighbourhood of the chunk the player stands in. */
    method GetVisibleChunks(player: Player) returns (visible: seq<ChunkPos>)
      requires width > 0
      ensures visible == Neighbourhood(ChunkOf(width, player.posX), ChunkOf(width, player.posZ), drawDistance)
    {
      var chunkX := (player.posX / width as real).Floor;
      var chunkZ := (player.posZ / width as real).Floor;
      var d := drawDistance;
      visible := [];
      var x := chunkX - d;
      while x <= chunkX + d
        invariant chunkX - d <= x <= chunkX + d + 1
        invariant visible == Square(chunkX - d, x - 1, chunkZ - d, chunkZ + d)
      {
        var z := chunkZ - d;
        while z <= chunkZ + d
          invariant chunkZ - d <= z <= chunkZ + d + 1
          invariant visible == Square(chunkX - d, x - 1, chunkZ - d, chunkZ + d) + Strip(x, chunkZ - d, z - 1)
        {
          visible := visible + [(x, z)];
          z := z + 1;
        }
        x := x + 1;
      }
    }

    /** The visible coordinates that no loaded chunk has yet, in visible order. */
    function GetChunksToAdd(visible: seq<ChunkPos>): (r: seq<ChunkPos>)
      reads this
      ensures forall p :: p in r <==> p in visible && p !in ChildCoords()
      ensures Ascending(visible) ==> Ascending(r)
    {
      MissingAscendingIf(visible, ChildCoords());
      Missing(visible, ChildCoords())
    }

    /** Drops, one by one, every chunk whose coordinate is not visible. */
    method RemoveUnusedChunks(visible: seq<ChunkPos>)
      requires Valid()
      modifies this
      ensures Valid()
      ensures children == Kept(old(children), visible)
    {
      var chunksToRemove := Dropped(children, visible);
      ghost var cs := children;
      DroppedNoDuplicates(cs, visible);
      WithoutNothing(cs);
      assert Elems(chunksToRemove[..0]) == {};
      for i := 0 to |chunksToRemove|
        invariant children == Without(cs, Elems(chunksToRemove[..i]))
      {
        assert chunksToRemove[i] !in Elems(chunksToRemove[..i]);
        RemoveChildWithout(cs, Elems(chunksToRemove[..i]), chunksToRemove[i]);
        assert Elems(chunksToRemove[..i + 1]) == Elems(chunksToRemove[..i]) + {chunksToRemove[i]};
        children := RemoveChild(children, chunksToRemove[i]);
      }
      assert chunksToRemove[..|chunksToRemove|] == chunksToRemove;
      WithoutDropped(cs, visible, Elems(chunksToRemove));
      KeptNoDuplicates(cs, visible);
    }

    /**
     * Creates the chunk at (x, z) and appends it. Synchronously it is
     * generated first and so is loaded; in asynchronous mode its generation
     * is deferred and it is appended not yet loaded.
     */
    method GenerateChunk(x: int, z: int)
      requires Valid()
      modifies this
      ensures Valid()
      ensures |children| == |old(children)| + 1 && children[..|old(children)|] == old(children)
      ensures fresh(children[|children| - 1])
      ensures children[|children| - 1].cx == x && children[|children| - 1].cz == z
      ensures children[|children| - 1].loaded == !asyncLoading
      ensures !asyncLoading ==> children[|children| - 1].HoldsGenerated()
      ensures ChildCoords() == old(ChildCoords()) + [(x, z)]
    {
      var chunk := new WorldChunk(width, height, params, x, z);
      if !asyncLoading {
        chunk.Generate();
      }
      Add(chunk);
    }

    /** `this.add(chunk)`: appends a chunk not yet among the children. */
    method Add(chunk: WorldChunk)
      requires Valid() && chunk !in children
      requires chunk.width == width && chunk.height == height && chunk.params == params
      requires chunk.loaded ==> chunk.Valid() && chunk.HoldsGenerated()
      modifies this`children
      ensures Valid()
      ensures children == old(children) + [chunk]
      ensures ChildCoords() == old(ChildCoords()) + [(chunk.cx, chunk.cz)]
    {
      assert Coordinates(children + [chunk]) == Coordinates(children) + [(chunk.cx, chunk.cz)];
      children := children + [chunk];
    }

    /**
     * The deferred generation of chunk `c` running at idle time: `c` becomes
     * loaded and holds the generated grid of its coordinate.
     */
    method RunIdleGeneration(c: WorldChunk)
      requires Valid() && c.params == params
      modifies c
      ensures Valid() && c.loaded && c.HoldsGenerated()
    {
      c.Generate();
    }

    /** The neighbourhood of the chunk the player stands in. */
    ghost function PlayerNeighbourhood(player: Player): seq<ChunkPos>
      reads player
      requires width > 0
    {
      Neighbourhood(ChunkOf(width, player.posX), ChunkOf(width, player.posZ), drawDistance)
    }

    /** The loop of `update` that creates a chunk for each coordinate of `toAdd`, in order. */
    method GenerateChunks(toAdd: seq<ChunkPos>)
      requires Valid()
      modifies this
      ensures Valid()
      ensures |old(children)| <= |children| && children[..|old(children)|] == old(children)
      ensures ChildCoords() == old(ChildCoords()) + toAdd
      ensures forall j | |old(children)| <= j < |children| :: fresh(children[j]) && children[j].loaded == !asyncLoading
    {
      ghost var before := children;
      for i := 0 to |toAdd|
        invariant Valid()
        invariant |before| <= |children| && children[..|before|] == before
        invariant ChildCoords() == Coordinates(before) + toAdd[..i]
        invariant forall j | |before| <= j < |children| :: fresh(children[j]) && children[j].loaded == !asyncLoading
      {
        GenerateChunk(toAdd[i].0, toAdd[i].1);
        assert toAdd[..i + 1] == toAdd[..i] + [toAdd[i]];
      }
      assert toAdd[..|toAdd|] == toAdd;
    }

    /**
     * Streams chunks around the player: the chunks that are no longer
     * visible are dropped and a chunk is created for each visible
     * coordinate that had none. Afterwards the loaded coordinates are
     * exactly the visible ones.
     */
    method Update(player: Player)
      requires Valid()
      modifies this
      ensures Valid()
      ensures forall p :: p in ChildCoords() <==> p in PlayerNeighbourhood(player)
      ensures NoDuplicates(old(ChildCoords())) ==> NoDuplicates(ChildCoords())
      ensures var kept := Kept(old(children), PlayerNeighbourhood(player));
              |kept| <= |children| && children[..|kept|] == kept &&
              forall i | |kept| <= i < |children| :: fresh(children[i]) && children[i].loaded == !asyncLoading
    {
      var visibleChunks := GetVisibleChunks(player);
      var chunksToAdd := GetChunksToAdd(visibleChunks);
      ghost var oldChildren := children;
      RemoveUnusedChunks(visibleChunks);
      ghost var kept := children;
      GenerateChunks(chunksToAdd);
      NeighbourhoodFacts(ChunkOf(width, player.posX), ChunkOf(width, player.posZ), drawDistance);
      CoordinatesKept(oldChildren, visibleChunks);
      if NoDuplicates(Coordinates(oldChildren)) {
        KeptCoordinatesNoDuplicates(oldChildren, visibleChunks);
      }
      StreamedCoords(Coordinates(oldChildren), Coordinates(kept), chunksToAdd, visibleChunks);
    }

    /** `children.find`: the first chunk at chunk coordinate (chunkX, chunkZ). */
    function GetChunk(chunkX: int, chunkZ: int): (r: Option<WorldChunk>)
      reads this
      ensures r.None? <==> (chunkX, chunkZ) !in ChildCoords()
      ensures r.Some? ==> r.value in children && r.value.cx == chunkX && r.value.cz == chunkZ
    {
      FindChunk(children, chunkX, chunkZ)
    }

    /**
     * The block at world (x, y, z): `None` when no chunk holds that column,
     * when its chunk is not loaded yet, or when y is outside the chunk
     * height; otherwise the record at the local coordinates.
     */
    function GetBlock(x: int, y: int, z: int): (r: Option<Block>)
      reads this, set c | c in children
      requires Valid()
      ensures var co := WorldToChunkCoords(width, x, y, z);
              var chunk := GetChunk(co.chunkX, co.chunkZ);
              && (r.Some? <==> chunk.Some? && chunk.value.loaded && 0 <= y < height)
              && (r.Some? ==> r.value == chunk.value.data[co.blockX][y][co.blockZ])
    {
      var coords := WorldToChunkCoords(width, x, y, z);
      var chunk := GetChunk(coords.chunkX, coords.chunkZ);
      if chunk.Some? && chunk.value.loaded then
        chunk.value.GetBlock(coords.blockX, coords.blockY, coords.blockZ)
      else
        None
    }

    /**
     * The world's blocks as a mathematical function of position, built from
     * the chunks' current values; it agrees with `GetBlock` everywhere.
     */
    ghost function BlockView(): (look: (int, int, int) -> Option<Block>)
      reads this, set c | c in children
      requires Valid()
      ensures forall x, y, z {:trigger GetBlock(x, y, z)} :: look(x, y, z) == GetBlock(x, y, z)
    {
      var vs := Views(children);
      var w, h := width, height;
      assert forall x, y, z {:trigger GetBlock(x, y, z)} ::
               ViewLookup(vs, w, h, WorldToChunkCoords(w, x, y, z)) == GetBlock(x, y, z) by {
        forall x, y, z
          ensures ViewLookup(vs, w, h, WorldToChunkCoords(w, x, y, z)) == GetBlock(x, y, z)
        {
          ViewLookupFinds(children, w, h, WorldToChunkCoords(w, x, y, z));
        }
      }
      (x: int, y: int, z: int) => if w > 0 then ViewLookup(vs, w, h, WorldToChunkCoords(w, x, y, z)) else None
    }
  }

  /**
   * Every block the world returns is the block generation puts at that
   * world position: its id is a function of the world coordinates alone,
   * whichever chunk holds it.
   */
  lemma LoadedBlocksGenerated(world: World, x: int, y: int, z: int)
    requires world.Valid()
    ensures world.GetBlock(x, y, z).Some? ==>
              var p := world.params;
              world.GetBlock(x, y, z).value.id ==
                TerrainId(p.catalog, ColumnHeight(p, world.height, x, z), y,
                          ResourceId(p, p.catalog.resources, x, y, z, p.catalog.empty))
  {
    var co := WorldToChunkCoords(world.width, x, y, z);
    var chunk := world.GetChunk(co.chunkX, co.chunkZ);
    if world.GetBlock(x, y, z).Some? {
      var c := chunk.value;
      var g0 := GeneratedGrid(world.params, world.width, world.height, c.cx, c.cz);
      assert c.HoldsGenerated();
      assert InBox(world.width, world.height, co.blockX, y, co.blockZ);
      assert c.data[co.blockX][y][co.blockZ] == MeshedCell(g0, world.width, world.height, world.params.catalog.empty, co.blockX, y, co.blockZ);
    }
  }

  /** A chunk list keeps exactly the coordinates that were loaded and are visible. */
  lemma {:induction false} CoordinatesKept(cs: seq<WorldChunk>, visible: seq<ChunkPos>)
    ensures forall p :: p in Coordinates(Kept(cs, visible)) <==> p in Coordinates(cs) && p in visible
  {
    if cs != [] {
      CoordinatesKept(cs[1..], visible);
      var head := (cs[0].cx, cs[0].cz);
      assert Coordinates(cs) == [head] + Coordinates(cs[1..]);
      var rest := Kept(cs[1..], visible);
      if head in visible {
        assert Kept(cs, visible) == [cs[0]] + rest;
        assert Coordinates(Kept(cs, visible)) == [head] + Coordinates(rest);
      } else {
        assert Kept(cs, visible) == rest;
      }
    }
  }

  /**
   * After streaming, the kept coordinates followed by the added ones are
   * exactly the visible ones, and no coordinate is held twice when none was
   * before.
   */
  lemma StreamedCoords(before: seq<ChunkPos>, kept: seq<ChunkPos>, added: seq<ChunkPos>, visible: seq<ChunkPos>)
    requires forall p :: p in kept <==> p in before && p in visible
    requires forall p :: p in added <==> p in visible && p !in before
    requires NoDuplicates(before) ==> NoDuplicates(kept)
    requires Ascending(added)
    ensures forall p :: p in kept + added <==> p in visible
    ensures NoDuplicates(before) ==> NoDuplicates(kept + added)
  {
    AscendingNoDuplicates(added);
    if NoDuplicates(before) {
      ConcatNoDuplicates(kept, added);
    }
  }

  lemma ConcatNoDuplicates(a: seq<ChunkPos>, b: seq<ChunkPos>)
    requires NoDuplicates(a) && NoDuplicates(b)
    requires forall p :: p in a ==> p !in b
    ensures NoDuplicates(a + b)
  {
    forall i, j | 0 <= i < j < |a + b|
      ensures (a + b)[i] != (a + b)[j]
    {
      if i < |a| && j >= |a| {
        assert (a + b)[i] in a && (a + b)[j] == b[j - |a|];
      }
    }
  }

  lemma MissingAscendingIf(visible: seq<ChunkPos>, loaded: seq<ChunkPos>)
    ensures Ascending(visible) ==> Ascending(Missing(visible, loaded))
  {
    if Ascending(visible) {
      MissingAscending(visible, loaded);
    }
  }
}
