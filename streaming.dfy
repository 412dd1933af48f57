/**
 * What chunk streaming computes, on values: world-to-chunk coordinates,
 * the square neighbourhood of visible chunk coordinates, and the diff of
 * that neighbourhood against the coordinates already loaded.
 */
module Streaming {
  import opened Common

  /** A chunk coordinate `{x, z}`. */
  type ChunkPos = (int, int)

  /** `{chunk: {x, z}, block: {x, y, z}}`. */
  datatype Coords = Coords(chunkX: int, chunkZ: int, blockX: int, blockY: int, blockZ: int)

  /**
   * Splits an integer world coordinate into the chunk that holds it and the
   * block inside that chunk: `chunk = floor(x / width)`, `block = x - width * chunk`.
   */
  function WorldToChunkCoords(width: nat, x: int, y: int, z: int): (c: Coords)
    requires width > 0
    ensures c.chunkX * width + c.blockX == x && 0 <= c.blockX < width
    ensures c.chunkZ * width + c.blockZ == z && 0 <= c.blockZ < width
    ensures c.blockY == y
  {
    var chunkX := x / width;
    var chunkZ := z / width;
    Coords(chunkX, chunkZ, x - width * chunkX, y, z - width * chunkZ)
  }

  /** `Math.floor(p / width)`: the chunk coordinate of a real world position. */
  function ChunkOf(width: nat, p: real): (c: int)
    requires width > 0
    ensures c as real * width as real <= p < (c + 1) as real * width as real
  {
    FloorDivision(p, width as real);
    (p / width as real).Floor
  }

  /** The floor of p / w, scaled back by w > 0, brackets p. */
  lemma FloorDivision(p: real, w: real)
    requires w > 0.0
    ensures (p / w).Floor as real * w <= p < ((p / w).Floor + 1) as real * w
  {
    var q := p / w;
    var c := q.Floor;
    assert q * w == p;
    assert c as real <= q < (c + 1) as real;
    assert c as real * w <= q * w;
    assert q * w < (c + 1) as real * w;
    assert p < (c + 1) as real * w;
    assert p < ((p / w).Floor + 1) as real * w;
  }


  /** For a position on the integer grid the real floor division is the integer one. */
  lemma ChunkOfInteger(width: nat, x: int)
    requires width > 0
    ensures ChunkOf(width, x as real) == WorldToChunkCoords(width, x, 0, 0).chunkX
  {
    var q, r := x / width, x % width;
    assert x == q * width + r;
    assert (x as real) / (width as real) == q as real + (r as real) / (width as real);
    assert 0.0 <= (r as real) / (width as real) < 1.0;
  }

  // ---------------------------------------------------------------------
  // The visible neighbourhood
  // ---------------------------------------------------------------------

  /** (x, zlo), (x, zlo + 1), ..., (x, zhi): one pass of the inner loop. */
  function Strip(x: int, zlo: int, zhi: int): seq<ChunkPos>
    decreases zhi - zlo
  {
    if zhi < zlo then [] else Strip(x, zlo, zhi - 1) + [(x, zhi)]
  }

  /** The strips for x = xlo, ..., xhi, in that order: both loops. */
  function Square(xlo: int, xhi: int, zlo: int, zhi: int): seq<ChunkPos>
    decreases xhi - xlo
  {
    if xhi < xlo then [] else Square(xlo, xhi - 1, zlo, zhi) + Strip(xhi, zlo, zhi)
  }

  /** The chunk coordinates within Chebyshev distance `d` of (cx, cz), x-major. */
  function Neighbourhood(cx: int, cz: int, d: nat): seq<ChunkPos>
  {
    Square(cx - d, cx + d, cz - d, cz + d)
  }

  /** Strictly before in x, then z order. */
  predicate LexLess(a: ChunkPos, b: ChunkPos)
  {
    a.0 < b.0 || (a.0 == b.0 && a.1 < b.1)
  }

  /** Strictly increasing in x, then z order (so free of repeats). */
  predicate Ascending(s: seq<ChunkPos>)
  {
    forall i, j :: 0 <= i < j < |s| ==> LexLess(s[i], s[j])
  }

  predicate NoDuplicates<T(==)>(s: seq<T>)
  {
    forall i, j :: 0 <= i < j < |s| ==> s[i] != s[j]
  }

  lemma {:induction false} StripFacts(x: int, zlo: int, zhi: int)
    ensures forall p :: p in Strip(x, zlo, zhi) <==> p.0 == x && zlo <= p.1 <= zhi
    ensures |Strip(x, zlo, zhi)| == if zhi < zlo then 0 else zhi - zlo + 1
    ensures Ascending(Strip(x, zlo, zhi))
    decreases zhi - zlo
  {
    if zlo <= zhi {
      StripFacts(x, zlo, zhi - 1);
    }
  }

  lemma {:induction false} SquareMembers(xlo: int, xhi: int, zlo: int, zhi: int)
    ensures forall p :: p in Square(xlo, xhi, zlo, zhi) <==> xlo <= p.0 <= xhi && zlo <= p.1 <= zhi
    decreases xhi - xlo
  {
    if xlo <= xhi {
      SquareMembers(xlo, xhi - 1, zlo, zhi);
      StripFacts(xhi, zlo, zhi);
    }
  }

  lemma {:induction false} SquareLength(xlo: int, xhi: int, zlo: int, zhi: int)
    ensures |Square(xlo, xhi, zlo, zhi)| == Side(xlo, xhi) * Side(zlo, zhi)
    decreases xhi - xlo
  {
    if xlo <= xhi {
      SquareLength(xlo, xhi - 1, zlo, zhi);
      StripFacts(xhi, zlo, zhi);
      var m, n := Side(xlo, xhi - 1), Side(zlo, zhi);
      assert Side(xlo, xhi) == m + 1;
      MulSucc(m, n);
    }
  }

  lemma {:induction false} SquareAscending(xlo: int, xhi: int, zlo: int, zhi: int)
    ensures Ascending(Square(xlo, xhi, zlo, zhi))
    decreases xhi - xlo
  {
    if xlo <= xhi {
      SquareAscending(xlo, xhi - 1, zlo, zhi);
      SquareMembers(xlo, xhi - 1, zlo, zhi);
      StripFacts(xhi, zlo, zhi);
      var a, b := Square(xlo, xhi - 1, zlo, zhi), Strip(xhi, zlo, zhi);
      forall i, j | 0 <= i < j < |a + b|
        ensures LexLess((a + b)[i], (a + b)[j])
      {
        if j < |a| {
          assert (a + b)[i] == a[i] && (a + b)[j] == a[j];
        } else if i >= |a| {
          assert (a + b)[i] == b[i - |a|] && (a + b)[j] == b[j - |a|];
        } else {
          assert (a + b)[i] == a[i] && a[i] in a;
          assert (a + b)[j] == b[j - |a|] && b[j - |a|] in b;
        }
      }
    }
  }

  /**
   * The nested loops over [xlo, xhi] × [zlo, zhi] produce exactly the
   * pairs of that rectangle, side times side of them, in x-major order.
   */
  lemma SquareFacts(xlo: int, xhi: int, zlo: int, zhi: int)
    ensures forall p :: p in Square(xlo, xhi, zlo, zhi) <==> xlo <= p.0 <= xhi && zlo <= p.1 <= zhi
    ensures |Square(xlo, xhi, zlo, zhi)| == Side(xlo, xhi) * Side(zlo, zhi)
    ensures Ascending(Square(xlo, xhi, zlo, zhi))
  {
    SquareMembers(xlo, xhi, zlo, zhi);
    SquareLength(xlo, xhi, zlo, zhi);
    SquareAscending(xlo, xhi, zlo, zhi);
  }

  lemma AscendingNoDuplicates(s: seq<ChunkPos>)
    requires Ascending(s)
    ensures NoDuplicates(s)
  {
  }

  /** A square whose two sides both span `side` coordinates has side * side entries. */
  lemma SideLength(xlo: int, xhi: int, zlo: int, zhi: int, side: nat)
    requires Side(xlo, xhi) == side && Side(zlo, zhi) == side
    ensures |Square(xlo, xhi, zlo, zhi)| == side * side
  {
    SquareLength(xlo, xhi, zlo, zhi);
  }

  /**
   * The visible neighbourhood holds exactly the (2d+1)² chunk coordinates
   * within distance d on both axes, each once, in x-major order.
   */
  lemma NeighbourhoodFacts(cx: int, cz: int, d: nat)
    ensures forall p :: p in Neighbourhood(cx, cz, d) <==> cx - d <= p.0 <= cx + d && cz - d <= p.1 <= cz + d
    ensures |Neighbourhood(cx, cz, d)| == (2 * d + 1) * (2 * d + 1)
    ensures Ascending(Neighbourhood(cx, cz, d)) && NoDuplicates(Neighbourhood(cx, cz, d))
  {
    var xlo, xhi, zlo, zhi := cx - d, cx + d, cz - d, cz + d;
    var s := Square(xlo, xhi, zlo, zhi);
    assert s == Neighbourhood(cx, cz, d);
    SquareMembers(xlo, xhi, zlo, zhi);
    SquareAscending(xlo, xhi, zlo, zhi);
    SideLength(xlo, xhi, zlo, zhi, 2 * d + 1);
    AscendingNoDuplicates(s);
  }

  // ---------------------------------------------------------------------
  // The diff against the loaded chunks
  // ---------------------------------------------------------------------

  /** The entries of `visible` that are not in `loaded`, in their order in `visible`. */
  function Missing(visible: seq<ChunkPos>, loaded: seq<ChunkPos>): (r: seq<ChunkPos>)
    ensures forall p :: p in r <==> p in visible && p !in loaded
    ensures |r| <= |visible|
  {
    if visible == [] then []
    else
      var rest := Missing(visible[..|visible| - 1], loaded);
      var last := visible[|visible| - 1];
      assert forall p :: p in visible <==> p in visible[..|visible| - 1] || p == last;
      if last in loaded then rest else rest + [last]
  }

  /** Taking out entries keeps an ascending list ascending: the order of `visible` is kept. */
  lemma {:induction false} MissingAscending(visible: seq<ChunkPos>, loaded: seq<ChunkPos>)
    requires Ascending(visible)
    ensures Ascending(Missing(visible, loaded))
  {
    if visible != [] {
      var front := visible[..|visible| - 1];
      MissingAscending(front, loaded);
      var rest := Missing(front, loaded);
      var last := visible[|visible| - 1];
      forall p | p in rest
        ensures LexLess(p, last)
      {
        var i :| 0 <= i < |front| && front[i] == p;
      }
    }
  }
}
