/**
  The hex grid of `map.rs`: a board of `w × h` tiles stored row-major in one
  flat sequence, bounds checks, tile reads and writes, the row-major position
  iterator and the integer hex distance.
 */
module HexMap {
  import opened Wrappers
  import opened HexDir

  /** Board width and height (`Size2`). */
  datatype Size2 = Size2(w: int, h: int)

  predicate ValidSize(size: Size2) {
    size.w > 0 && size.h > 0
  }

  datatype Terrain = Plain | Trees | City | Water

  /** `impl Default for Terrain`. */
  function DefaultTerrain(): Terrain {
    Plain
  }

  /** `is_inboard`: both coordinates within `[0, w) × [0, h)`. */
  predicate Inboard(size: Size2, p: MapPos) {
    p.x >= 0 && p.y >= 0 && p.x < size.w && p.y < size.h
  }

  /** The flat index of an in-board tile, `w * y + x`: always a valid index into the `w * h` tiles. */
  function Index(size: Size2, p: MapPos): (i: int)
    requires ValidSize(size) && Inboard(size, p)
    ensures 0 <= i < size.w * size.h
  {
    MulMono(size.w, 0, p.y);
    MulMono(size.w, p.y + 1, size.h);
    assert size.w * (p.y + 1) == size.w * p.y + size.w;
    size.w * p.y + p.x
  }

  // ---------------------------------------------------------------------------
  // Arithmetic helpers for the row-major layout

  lemma MulMono(w: int, a: int, b: int)
    requires w >= 0 && a <= b
    ensures w * a <= w * b
  {
    assert w * b - w * a == w * (b - a);
  }

  lemma BoardArea(size: Size2)
    requires ValidSize(size)
    ensures size.w * size.h >= size.w
  {
    MulMono(size.w, 1, size.h);
  }

  /** Row-major order on positions: row first, then column. */
  predicate RowMajorBefore(p: MapPos, q: MapPos) {
    p.y < q.y || (p.y == q.y && p.x < q.x)
  }

  lemma {:induction false} IndexMonotone(size: Size2, p: MapPos, q: MapPos)
    requires ValidSize(size) && Inboard(size, p) && Inboard(size, q)
    requires RowMajorBefore(p, q)
    ensures Index(size, p) < Index(size, q)
  {
    if p.y < q.y {
      MulMono(size.w, p.y + 1, q.y);
      assert size.w * (p.y + 1) == size.w * p.y + size.w;
    }
  }

  /** Two in-board positions with the same index are the same position. */
  lemma {:induction false} IndexInjective(size: Size2, p: MapPos, q: MapPos)
    requires ValidSize(size) && Inboard(size, p) && Inboard(size, q)
    requires Index(size, p) == Index(size, q)
    ensures p == q
  {
    if RowMajorBefore(p, q) {
      IndexMonotone(size, p, q);
    } else if RowMajorBefore(q, p) {
      IndexMonotone(size, q, p);
    }
  }

  // ---------------------------------------------------------------------------
  // All positions of the board, in row-major order

  /** Row `y` of the board, west to east. */
  function Row(size: Size2, y: int): (row: seq<MapPos>)
    requires ValidSize(size)
    ensures |row| == size.w
  {
    seq(size.w, x requires 0 <= x < size.w => MapPos(x, y))
  }

  /** Rows `y .. h-1`, each west to east, bottom row first. */
  function RowsFrom(size: Size2, y: int): (ps: seq<MapPos>)
    requires ValidSize(size) && 0 <= y <= size.h
    ensures |ps| == size.w * (size.h - y)
    decreases size.h - y
  {
    if y == size.h then []
    else
      assert size.w * (size.h - y) == size.w + size.w * (size.h - (y + 1));
      Row(size, y) + RowsFrom(size, y + 1)
  }

  /** The positions `MapPosIter` visits, in the order it visits them: y outer, x inner. */
  function AllPositions(size: Size2): (ps: seq<MapPos>)
    requires ValidSize(size)
    ensures |ps| == size.w * size.h
  {
    RowsFrom(size, 0)
  }

  lemma {:induction false} RowsFromAt(size: Size2, y: int, i: int)
    requires ValidSize(size) && 0 <= y < size.h && 0 <= i < |RowsFrom(size, y)|
    ensures Inboard(size, RowsFrom(size, y)[i])
    ensures Index(size, RowsFrom(size, y)[i]) == size.w * y + i
    decreases size.h - y
  {
    if i >= size.w {
      assert RowsFrom(size, y)[i] == RowsFrom(size, y + 1)[i - size.w];
      RowsFromAt(size, y + 1, i - size.w);
      assert size.w * (y + 1) == size.w * y + size.w;
    }
  }

  /** Every enumerated position is in board, and sits at its own flat index. */
  lemma AllPositionsAt(size: Size2, i: int)
    requires ValidSize(size) && 0 <= i < size.w * size.h
    ensures Inboard(size, AllPositions(size)[i])
    ensures Index(size, AllPositions(size)[i]) == i
  {
    RowsFromAt(size, 0, i);
  }

  /** Every in-board position is enumerated, at its flat index. */
  lemma {:induction false} AllPositionsIndex(size: Size2, p: MapPos)
    requires ValidSize(size) && Inboard(size, p)
    ensures 0 <= Index(size, p) < |AllPositions(size)|
    ensures AllPositions(size)[Index(size, p)] == p
  {
    AllPositionsAt(size, Index(size, p));
    IndexInjective(size, p, AllPositions(size)[Index(size, p)]);
  }

  /** The enumeration is strictly increasing in row-major order: y outer, x inner. */
  lemma {:induction false} AllPositionsRowMajor(size: Size2, i: int, j: int)
    requires ValidSize(size) && 0 <= i < j < size.w * size.h
    ensures RowMajorBefore(AllPositions(size)[i], AllPositions(size)[j])
  {
    var p, q := AllPositions(size)[i], AllPositions(size)[j];
    AllPositionsAt(size, i);
    AllPositionsAt(size, j);
    if !RowMajorBefore(p, q) {
      if p == q {
        assert false;
      } else {
        IndexMonotone(size, q, p);
        assert false;
      }
    }
  }

  /** `is_inboard(p)` holds exactly for the positions the board iterator yields. */
  lemma InboardIffEnumerated(size: Size2, p: MapPos)
    requires ValidSize(size)
    ensures Inboard(size, p) <==> p in AllPositions(size)
  {
    if Inboard(size, p) {
      AllPositionsIndex(size, p);
    }
    if p in AllPositions(size) {
      var i :| 0 <= i < |AllPositions(size)| && AllPositions(size)[i] == p;
      AllPositionsAt(size, i);
    }
  }

  // ---------------------------------------------------------------------------
  // The board iterator

  /** `MapPosIter`: a cursor that walks the board row by row. */
  class MapPosIter {
    var cursor: MapPos
    const mapSize: Size2

    ghost predicate Valid()
      reads this
    {
      ValidSize(mapSize) && 0 <= cursor.x < mapSize.w && 0 <= cursor.y
    }

    /** How many positions the iterator has yielded: the row-major index of the cursor, or all of them once it is past the last row. */
    ghost function Yielded(): (n: nat)
      reads this
      requires Valid()
      ensures n <= |AllPositions(mapSize)|
    {
      if cursor.y >= mapSize.h then |AllPositions(mapSize)|
      else AllPositionsIndex(mapSize, cursor); Index(mapSize, cursor)
    }

    /** The positions the iterator has still to yield. */
    ghost function Remaining(): seq<MapPos>
      reads this
      requires Valid()
    {
      AllPositions(mapSize)[Yielded()..]
    }

    /** `MapPosIter::new`: the cursor starts at (0, 0). */
    constructor (mapSize: Size2)
      requires ValidSize(mapSize)
      ensures Valid() && this.mapSize == mapSize
      ensures Yielded() == 0 && Remaining() == AllPositions(mapSize)
    {
      this.cursor := MapPos(0, 0);
      this.mapSize := mapSize;
    }

    /**
      `next`: yields the cursor while it is still on a row of the board, then
      `None` for ever; so it yields the board's positions in row-major order.
     */
    method Next() returns (r: Option<MapPos>)
      requires Valid()
      modifies this
      ensures Valid()
      ensures old(Yielded()) == |AllPositions(mapSize)| ==> r == None && Yielded() == old(Yielded())
      ensures old(Yielded()) < |AllPositions(mapSize)| ==>
        r == Some(AllPositions(mapSize)[old(Yielded())]) && Yielded() == old(Yielded()) + 1
    {
      ghost var all := AllPositions(mapSize);
      if cursor.y < mapSize.h {
        AllPositionsIndex(mapSize, cursor);
      }
      ghost var i := Yielded();
      r := if cursor.y >= mapSize.h then None else Some(cursor);
      cursor := cursor.(x := cursor.x + 1);
      if cursor.x >= mapSize.w {
        assert mapSize.w * (cursor.y + 1) == mapSize.w * cursor.y + mapSize.w;
        if cursor.y + 1 == mapSize.h {
          assert mapSize.w * mapSize.h == i + 1;
        }
        cursor := MapPos(0, cursor.y + 1);
      }
      if old(cursor.y) < mapSize.h && cursor.y < mapSize.h {
        assert Index(mapSize, cursor) == i + 1;
      }
    }
  }

  // ---------------------------------------------------------------------------
  // The callback of `from_callback`

  /**
    `from_callback` takes a `&mut FnMut(MapPos) -> T`: a callback that may keep
    state of its own and change it on every call.  That state is made explicit
    here: `cb(s, p)` is the callback's new state and the tile it returns for
    cell `p` when called in state `s`.  The calls are made on the cells of
    `ps` in order, from state `s`; `StateAfter(cb, s, ps, k)` is the state the
    first `k` calls leave, the one in which call `k` is made.
   */
  function StateAfter<S, T>(cb: (S, MapPos) -> (S, T), s: S, ps: seq<MapPos>, k: nat): S
    requires k <= |ps|
  {
    if k == 0 then s else cb(StateAfter(cb, s, ps, k - 1), ps[k - 1]).0
  }

  /** A callback that keeps no state is called in the initial state every time, and gives every tile as a plain function of its cell. */
  lemma {:induction false} StatelessCallback<S, T>(cb: (S, MapPos) -> (S, T), f: MapPos -> T, s: S, ps: seq<MapPos>, k: nat)
    requires k <= |ps|
    requires forall s', p :: cb(s', p) == (s', f(p))
    ensures StateAfter(cb, s, ps, k) == s
    ensures forall i :: 0 <= i < k ==> cb(StateAfter(cb, s, ps, i), ps[i]).1 == f(ps[i])
  {
    if k > 0 {
      StatelessCallback(cb, f, s, ps, k - 1);
    }
  }

  /**
    `ts` and `s` are what the first `|ts|` calls of `cb` on `ps`, made in
    order from state `s0`, return: call `i` is made in the state
    `StateAfter(cb, s0, ps, i)` and its tile is `ts[i]`.
   */
  ghost predicate CalledInOrder<S, T>(cb: (S, MapPos) -> (S, T), s0: S, ps: seq<MapPos>, ts: seq<T>, s: S)
  {
    |ts| <= |ps| &&
    (forall i :: 0 <= i < |ts| ==> ts[i] == cb(StateAfter(cb, s0, ps, i), ps[i]).1) &&
    s == StateAfter(cb, s0, ps, |ts|)
  }

  /** One call of the callback, on the next cell, its tile pushed. */
  method CallOnce<S, T>(cb: (S, MapPos) -> (S, T), ghost s0: S, ghost ps: seq<MapPos>, ts: seq<T>, s: S, p: MapPos)
    returns (ts': seq<T>, s': S)
    requires CalledInOrder(cb, s0, ps, ts, s) && |ts| < |ps| && p == ps[|ts|]
    ensures CalledInOrder(cb, s0, ps, ts', s') && |ts'| == |ts| + 1
  {
    var call := cb(s, p);
    ts' := ts + [call.1];
    s' := call.0;
  }

  /**
    The loop of `from_callback`: one call of `cb` per position the board
    iterator yields, in that order, its result pushed.
   */
  method CollectTiles<S, T>(size: Size2, s0: S, cb: (S, MapPos) -> (S, T)) returns (ts: seq<T>, s: S)
    requires ValidSize(size)
    ensures |ts| == |AllPositions(size)|
    ensures CalledInOrder(cb, s0, AllPositions(size), ts, s)
  {
    ghost var all := AllPositions(size);
    ts := [];
    s := s0;
    var it := new MapPosIter(size);
    var pos := it.Next();
    while pos.Some?
      invariant it.Valid() && it.mapSize == size
      invariant pos.Some? ==> it.Yielded() == |ts| + 1 && pos.value == all[|ts|]
      invariant pos.None? ==> |ts| == |all|
      invariant CalledInOrder(cb, s0, all, ts, s)
      decreases |all| - |ts|
    {
      ts, s := CallOnce(cb, s0, all, ts, s, pos.value);
      pos := it.Next();
    }
  }

  // ---------------------------------------------------------------------------
  // The board

  /** `Map<T>`: `w * h` tiles stored row-major. */
  class Map<T> {
    var tiles: seq<T>
    const size: Size2

    ghost predicate Valid()
      reads this
    {
      ValidSize(size) && |tiles| == size.w * size.h
    }

    /** `Map::new`: every tile holds the default value of `T` (passed in as `dflt`). */
    constructor (size: Size2, dflt: T)
      requires ValidSize(size)
      ensures Valid() && this.size == size
      ensures forall i :: 0 <= i < |tiles| ==> tiles[i] == dflt
      ensures forall p :: Inboard(size, p) ==> Tile(p) == dflt
    {
      BoardArea(size);
      this.size := size;
      this.tiles := seq(size.w * size.h, _ => dflt);
      new;
    }

    /** The struct literal `Map{tiles, size}`. */
    constructor OfTiles(size: Size2, tiles: seq<T>)
      requires ValidSize(size) && |tiles| == size.w * size.h
      ensures Valid() && this.size == size && this.tiles == tiles
    {
      this.size := size;
      this.tiles := tiles;
    }

    /**
      `Map::from_callback`: tile `i` is what the callback returns at the `i`-th
      position of the board iterator, called in the state its earlier calls
      left; the callback's final state is returned beside the map.
     */
    static method FromCallback<S>(size: Size2, s0: S, cb: (S, MapPos) -> (S, T)) returns (m: Map<T>, s: S)
      requires ValidSize(size)
      ensures fresh(m) && m.Valid() && m.size == size
      ensures CalledInOrder(cb, s0, AllPositions(size), m.tiles, s)
      ensures forall p :: Inboard(size, p) ==> m.Tile(p) == cb(StateAfter(cb, s0, AllPositions(size), Index(size, p)), p).1
    {
      var ts;
      ts, s := CollectTiles(size, s0, cb);
      m := new Map.OfTiles(size, ts);
      forall p | Inboard(size, p)
        ensures m.Tile(p) == cb(StateAfter(cb, s0, AllPositions(size), Index(size, p)), p).1
      {
        AllPositionsIndex(size, p);
      }
    }

    /** `tile`: the tile at an in-board position (out of board is a panic). */
    function Tile(pos: MapPos): T
      reads this
      requires Valid() && Inboard(size, pos)
    {
      tiles[Index(size, pos)]
    }

    /** A write through `tile_mut`: only the tile at `pos` changes. */
    method SetTile(pos: MapPos, v: T)
      requires Valid() && Inboard(size, pos)
      modifies this
      ensures Valid()
      ensures tiles == old(tiles)[Index(size, pos) := v]
      ensures Tile(pos) == v
      ensures forall q :: Inboard(size, q) && q != pos ==> Tile(q) == old(Tile(q))
    {
      ghost var before := tiles;
      var k := Index(size, pos);
      tiles := tiles[k := v];
      forall q | Inboard(size, q) && q != pos ensures Tile(q) == before[Index(size, q)] {
        if Index(size, q) == k {
          IndexInjective(size, q, pos);
        }
      }
    }

    /** `get_iter`: a fresh iterator over every position of this board. */
    method GetIter() returns (it: MapPosIter)
      requires Valid()
      ensures fresh(it) && it.Valid() && it.mapSize == size
      ensures it.Remaining() == AllPositions(size)
    {
      it := new MapPosIter(size);
    }
  }

  /** `Map::<Terrain>::new`: a terrain board is all `Plain`, since that is `Terrain::default()`. */
  method NewTerrainMap(size: Size2) returns (m: Map<Terrain>)
    requires ValidSize(size)
    ensures fresh(m) && m.Valid() && m.size == size
    ensures forall p :: Inboard(size, p) ==> m.Tile(p) == Plain
  {
    m := new Map(size, DefaultTerrain());
  }

  // ---------------------------------------------------------------------------
  // Distance

  /** Rust's `/ 2` on `i32`: rounds toward zero. */
  function TruncDiv2(a: int): (r: int)
    ensures -1 <= a - 2 * r <= 1
    ensures a >= 0 ==> a - 2 * r >= 0
    ensures a <= 0 ==> a - 2 * r <= 0
  {
    if a >= 0 then a / 2 else -((-a) / 2)
  }

  /** `distance`, with the row halving done by truncating division as in the source. */
  function Distance(from: MapPos, to: MapPos): (d: int)
    ensures d >= 0
  {
    var dx := (to.x + TruncDiv2(to.y)) - (from.x + TruncDiv2(from.y));
    var dy := to.y - from.y;
    (Abs(dx) + Abs(dy) + Abs(dx - dy)) / 2
  }

  /** The numerator of `distance` is always even, so the final halving loses nothing. */
  lemma DistanceNumeratorEven(from: MapPos, to: MapPos)
    ensures var dx := (to.x + TruncDiv2(to.y)) - (from.x + TruncDiv2(from.y));
            var dy := to.y - from.y;
            (Abs(dx) + Abs(dy) + Abs(dx - dy)) % 2 == 0
  {
    var dx := (to.x + TruncDiv2(to.y)) - (from.x + TruncDiv2(from.y));
    var m := NumeratorIsTwice(dx, to.y - from.y);
  }

  /** `|a| + |b| + |a - b|` is twice the largest of the three. */
  lemma NumeratorIsTwice(a: int, b: int) returns (m: int)
    ensures Abs(a) + Abs(b) + Abs(a - b) == 2 * m
  {
    if (a >= 0) == (b >= 0) {
      m := if Abs(a) >= Abs(b) then Abs(a) else Abs(b);
    } else {
      m := Abs(a - b);
    }
  }

  lemma DistanceToSelf(a: MapPos)
    ensures Distance(a, a) == 0
  {
  }

  lemma DistanceSymmetric(a: MapPos, b: MapPos)
    ensures Distance(a, b) == Distance(b, a)
  {
  }

  /** On rows `y >= 0` (every in-board cell) truncation and floor agree, so `distance` is the hex distance. */
  lemma DistanceIsHexDistanceOnBoard(a: MapPos, b: MapPos)
    requires a.y >= 0 && b.y >= 0
    ensures Distance(a, b) == HexDistance(ToAxial(a), ToAxial(b))
  {
  }

  /**
    Below row 0 they do not: (-1, -1), the first cell of the ring of radius 2
    around (0, 0), is at `distance` 1 from it although its hex distance is 2.
   */
  lemma DistanceTruncatesBelowRowZero()
    ensures Distance(MapPos(0, 0), MapPos(-1, -1)) == 1
    ensures HexDistance(ToAxial(MapPos(0, 0)), ToAxial(MapPos(-1, -1))) == 2
  {
    assert TruncDiv2(0) == 0 && TruncDiv2(-1) == 0;
    assert ToAxial(MapPos(-1, -1)) == Axial(-2, -1);
  }

  /** Truncation is not Dafny's floor division: `-1 / 2` truncates to 0 but floors to -1. */
  lemma TruncDiv2IsNotFloor()
    ensures TruncDiv2(-1) == 0 && (-1) / 2 == -1
  {
  }
}
