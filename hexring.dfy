/**
  Ring and spiral enumeration of `map.rs`.

  The iterators are state machines over a cursor, a segment counter and the
  direction iterator.  Each is specified by the sequence it has still to
  yield (`Remaining`), and that sequence is proved equal to an independent
  description of a ring: six straight walks of `radius` steps each, in the
  direction order, starting `radius` cells west of the centre.
 */
module HexRing {
  import opened Wrappers
  import opened HexDir
  import opened HexMap

  // ---------------------------------------------------------------------------
  // Reference description of a ring

  /** The `m` cells visited when walking `m` steps from `p` in direction `d` (`p` excluded). */
  function Walk(p: MapPos, d: Dir, m: nat): (w: seq<MapPos>)
    ensures |w| == m
    decreases m
  {
    if m == 0 then [] else [Neighbour(p, d)] + Walk(Neighbour(p, d), d, m - 1)
  }

  /** Where that walk ends. */
  function WalkEnd(p: MapPos, d: Dir, m: nat): MapPos
    decreases m
  {
    if m == 0 then p else WalkEnd(Neighbour(p, d), d, m - 1)
  }

  /** The number of cells on the last `6 - i` segments of a ring of radius `n`. */
  function WalksLength(i: nat, n: int): int
    requires i <= 6
  {
    [6 * n, 5 * n, 4 * n, 3 * n, 2 * n, n, 0][i]
  }

  /** Walks of `n` steps in the directions `Dirs[i..]`, each starting where the previous one ended. */
  function Walks(p: MapPos, i: nat, n: nat): (w: seq<MapPos>)
    requires i <= 6
    ensures |w| == WalksLength(i, n)
    decreases 6 - i
  {
    if i == 6 then [] else Walk(p, Dirs[i], n) + Walks(WalkEnd(p, Dirs[i], n), i + 1, n)
  }

  function WalksEnd(p: MapPos, i: nat, n: nat): MapPos
    requires i <= 6
    decreases 6 - i
  {
    if i == 6 then p else WalksEnd(WalkEnd(p, Dirs[i], n), i + 1, n)
  }

  /** The first cursor of a ring: `radius` cells west of the centre. */
  function RingStart(c: MapPos, n: int): MapPos {
    MapPos(c.x - n, c.y)
  }

  /** The ring of radius `n` around `c`, in the order it is walked. */
  function Ring(c: MapPos, n: nat): seq<MapPos> {
    Walks(RingStart(c, n), 0, n)
  }

  /** Rings `a ..= b` around `c`, one after the other. */
  function Rings(c: MapPos, a: nat, b: int): seq<MapPos>
    decreases b - a
  {
    if a > b then [] else Ring(c, a) + Rings(c, a + 1, b)
  }

  // ---------------------------------------------------------------------------
  // The ring iterator's state machine, as a function of its state

  /**
    What `RingIter::next` yields from cursor `cursor`, segment index `seg`,
    `k` directions already taken from the direction iterator (the current
    direction being `Dirs[k - 1]`) and radius `n`.
   */
  function Steps(cursor: MapPos, seg: int, k: nat, n: int): seq<MapPos>
    requires 0 <= seg <= n && 1 <= k <= 6
    decreases 6 - k, n - seg
  {
    var next := Neighbour(cursor, Dirs[k - 1]);
    if seg >= n - 1 then
      if k < 6 then [next] + Steps(next, 0, k + 1, n)       // rotate
      else if seg == n then []                              // done
      else [next] + Steps(next, seg + 1, k, n)              // last position
    else [next] + Steps(next, seg + 1, k, n)                // simple step
  }

  lemma {:induction false} StepsAreWalks(cursor: MapPos, seg: int, k: nat, n: int)
    requires n >= 1 && 1 <= k <= 6 && 0 <= seg <= n && (k < 6 ==> seg < n)
    ensures Steps(cursor, seg, k, n)
         == Walk(cursor, Dirs[k - 1], n - seg) + Walks(WalkEnd(cursor, Dirs[k - 1], n - seg), k, n)
    decreases 6 - k, n - seg
  {
    var next := Neighbour(cursor, Dirs[k - 1]);
    if seg >= n - 1 && k < 6 {
      StepsAreWalks(next, 0, k + 1, n);
      RotateJoin(cursor, k, n);
    } else if seg < n {
      StepsAreWalks(next, seg + 1, k, n);
      StepJoin(cursor, seg, k, n);
    }
  }

  /** The last step of a segment turns the corner: it is a one-step walk followed by the remaining walks. */
  lemma RotateJoin(cursor: MapPos, k: nat, n: int)
    requires n >= 1 && 1 <= k < 6
    requires var next := Neighbour(cursor, Dirs[k - 1]);
      Steps(next, 0, k + 1, n) == Walk(next, Dirs[k], n) + Walks(WalkEnd(next, Dirs[k], n), k + 1, n)
    ensures Steps(cursor, n - 1, k, n)
         == Walk(cursor, Dirs[k - 1], 1) + Walks(WalkEnd(cursor, Dirs[k - 1], 1), k, n)
  {
    var next := Neighbour(cursor, Dirs[k - 1]);
    var first, rest := Walk(next, Dirs[k], n), Walks(WalkEnd(next, Dirs[k], n), k + 1, n);
    assert Walk(cursor, Dirs[k - 1], 1) == [next];
    assert WalkEnd(cursor, Dirs[k - 1], 1) == next;
    assert Walks(next, k, n) == first + rest;
  }

  /** A step inside a segment extends the walk along it by one cell. */
  lemma StepJoin(cursor: MapPos, seg: int, k: nat, n: int)
    requires n >= 1 && 1 <= k <= 6 && 0 <= seg < n && (k < 6 ==> seg < n - 1)
    requires var d, next := Dirs[k - 1], Neighbour(cursor, Dirs[k - 1]);
      Steps(next, seg + 1, k, n) == Walk(next, d, n - seg - 1) + Walks(WalkEnd(next, d, n - seg - 1), k, n)
    ensures Steps(cursor, seg, k, n)
         == Walk(cursor, Dirs[k - 1], n - seg) + Walks(WalkEnd(cursor, Dirs[k - 1], n - seg), k, n)
  {
    var d, next := Dirs[k - 1], Neighbour(cursor, Dirs[k - 1]);
    var m: nat := n - seg - 1;
    StepsInSegment(cursor, seg, k, n);
    WalkCons(cursor, d, m);
    ConcatAssoc([next], Walk(next, d, m), Walks(WalkEnd(next, d, m), k, n));
  }

  /** Inside a segment, the ring iterator yields the neighbour in the current direction and carries on along the segment. */
  lemma StepsInSegment(cursor: MapPos, seg: int, k: nat, n: int)
    requires 1 <= k <= 6 && 0 <= seg < n && (k < 6 ==> seg < n - 1)
    ensures Steps(cursor, seg, k, n) == [Neighbour(cursor, Dirs[k - 1])] + Steps(Neighbour(cursor, Dirs[k - 1]), seg + 1, k, n)
  {
  }

  /** A walk of `m + 1` steps is one step followed by a walk of `m` steps from the neighbour. */
  lemma WalkCons(p: MapPos, d: Dir, m: nat)
    ensures Walk(p, d, m + 1) == [Neighbour(p, d)] + Walk(Neighbour(p, d), d, m)
    ensures WalkEnd(p, d, m + 1) == WalkEnd(Neighbour(p, d), d, m)
  {
  }

  lemma ConcatAssoc(a: seq<MapPos>, b: seq<MapPos>, c: seq<MapPos>)
    ensures a + (b + c) == (a + b) + c
  {
  }

  /** From its first state, the ring iterator yields exactly the reference ring. */
  lemma RingIterYieldsRing(c: MapPos, n: int)
    requires n >= 1
    ensures Steps(RingStart(c, n), 0, 1, n) == Ring(c, n)
  {
    StepsAreWalks(RingStart(c, n), 0, 1, n);
  }

  /** From its first state at radius 0, the ring iterator yields the five rotation steps. */
  lemma RingIterRadiusZero(c: MapPos)
    ensures |Steps(c, 0, 1, 0)| == 5
  {
    var p := c;
    var k := 1;
    while k < 6
      invariant 1 <= k <= 6
      invariant |Steps(c, 0, 1, 0)| == (k - 1) + |Steps(p, 0, k, 0)|
    {
      p, k := Neighbour(p, Dirs[k - 1]), k + 1;
    }
  }

  // ---------------------------------------------------------------------------
  // Properties of rings

  /** A ring of radius `n` has `6 n` cells. */
  lemma RingLength(c: MapPos, n: nat)
    ensures |Ring(c, n)| == 6 * n
  {
  }

  lemma {:induction false} WalkLast(p: MapPos, d: Dir, m: nat)
    requires m >= 1
    ensures Walk(p, d, m)[m - 1] == WalkEnd(p, d, m)
    decreases m
  {
    if m > 1 {
      WalkLast(Neighbour(p, d), d, m - 1);
    }
  }

  lemma {:induction false} WalksLast(p: MapPos, i: nat, n: nat)
    requires i < 6 && n >= 1
    ensures Walks(p, i, n)[WalksLength(i, n) - 1] == WalksEnd(p, i, n)
    decreases 6 - i
  {
    var q := WalkEnd(p, Dirs[i], n);
    if i == 5 {
      WalkLast(p, Dirs[i], n);
    } else {
      WalksLast(q, i + 1, n);
      var w := Walk(p, Dirs[i], n);
      var ws := Walks(q, i + 1, n);
      assert Walks(p, i, n) == w + ws;
      assert WalksLength(i, n) == n + WalksLength(i + 1, n);
    }
  }

  lemma {:induction false} WalkEndShift(p: MapPos, d: Dir, m: nat)
    ensures ToAxial(WalkEnd(p, d, m)) == Shift(ToAxial(p), d, m)
    decreases m
  {
    if m > 0 {
      NeighbourShift(p, d);
      WalkEndShift(Neighbour(p, d), d, m - 1);
    }
  }

  /** Six walks of `n` steps in the six directions come back to where they began. */
  lemma RingWalksClose(p: MapPos, n: nat)
    ensures WalksEnd(p, 0, n) == p
  {
    var q := p;
    var i := 0;
    while i < 6
      invariant 0 <= i <= 6
      invariant WalksEnd(p, 0, n) == WalksEnd(q, i, n)
      invariant ToAxial(q) == (match i
        case 0 => ToAxial(p)
        case 1 => Shift(ToAxial(p), SouthEast, n)
        case 2 => Axial(ToAxial(p).q + n, ToAxial(p).r - n)
        case 3 => Axial(ToAxial(p).q + 2 * n, ToAxial(p).r)
        case 4 => Axial(ToAxial(p).q + 2 * n, ToAxial(p).r + n)
        case 5 => Axial(ToAxial(p).q + n, ToAxial(p).r + n)
        case _ => ToAxial(p))
    {
      WalkEndShift(q, Dirs[i], n);
      q, i := WalkEnd(q, Dirs[i], n), i + 1;
    }
    ToAxialInjective(q, p);
  }

  /** The ring closes: its last cell is the iterator's first cursor, `radius` cells west of the centre. */
  lemma RingCloses(c: MapPos, n: nat)
    requires n >= 1
    ensures Ring(c, n)[6 * n - 1] == RingStart(c, n)
  {
    WalksLast(RingStart(c, n), 0, n);
    RingWalksClose(RingStart(c, n), n);
  }

  lemma {:induction false} WalkAt(p: MapPos, d: Dir, m: nat, j: nat)
    requires j < m
    ensures ToAxial(Walk(p, d, m)[j]) == Shift(ToAxial(p), d, j + 1)
    decreases m
  {
    NeighbourShift(p, d);
    if j > 0 {
      WalkAt(Neighbour(p, d), d, m - 1, j - 1);
    }
  }

  /** Where segment `i` of a ring of radius `n` starts, relative to the centre, in axial coordinates. */
  function SegmentStart(i: nat, n: int): Axial
    requires i < 6
  {
    [Axial(-n, 0), Axial(-n, -n), Axial(0, -n), Axial(n, 0), Axial(n, n), Axial(0, n)][i]
  }

  /** The number of cells on the first `i` segments of a ring of radius `n`. */
  function SegmentBase(i: nat, n: int): int
    requires i < 6
  {
    [0, n, 2 * n, 3 * n, 4 * n, 5 * n][i]
  }

  /** The offset of `a` from `o`. */
  function Offset(o: Axial, a: Axial): Axial {
    Axial(a.q - o.q, a.r - o.r)
  }

  /**
    The position in the walk of a cell at offset `a` on the ring of radius `n`:
    which of the six segments it lies on, and how far along.
   */
  function RingIndex(n: int, a: Axial): int {
    if a.q == -n && a.r < 0 then -a.r - 1
    else if a.r == -n && a.q > -n then n + (a.q + n) - 1
    else if a.q > 0 && a.r <= 0 then 2 * n + a.q - 1
    else if a.q == n && a.r > 0 then 3 * n + a.r - 1
    else if a.r == n && a.q < n then 4 * n + (n - a.q) - 1
    else 5 * n + (-a.q) - 1
  }

  lemma ShiftOffset(o: Axial, a: Axial, d: Dir, m: int)
    ensures Offset(o, Shift(Axial(o.q + a.q, o.r + a.r), d, m)) == Shift(a, d, m)
  {
  }

  /** A walk along segment `i` ends where segment `i + 1` starts. */
  lemma SegmentStepAt(o: Axial, p: MapPos, i: nat, n: nat)
    requires i < 5
    requires ToAxial(p) == Axial(o.q + SegmentStart(i, n).q, o.r + SegmentStart(i, n).r)
    ensures ToAxial(WalkEnd(p, Dirs[i], n)) == Axial(o.q + SegmentStart(i + 1, n).q, o.r + SegmentStart(i + 1, n).r)
    ensures SegmentBase(i + 1, n) == SegmentBase(i, n) + n
  {
    WalkEndShift(p, Dirs[i], n);
    ShiftOffset(o, SegmentStart(i, n), Dirs[i], n);
  }

  /** The `t`-th cell of segment `i` lies at hex distance `n` from the centre. */
  lemma SegmentShiftRadius(i: nat, n: nat, t: int)
    requires i < 6 && 1 <= t <= n
    ensures HexDistance(Axial(0, 0), Shift(SegmentStart(i, n), Dirs[i], t)) == n
  {
  }

  /** The `t`-th cell of segment `i` is at position `t - 1` of that segment. */
  lemma SegmentShiftIndex(i: nat, n: nat, t: int)
    requires i < 6 && 1 <= t <= n
    ensures RingIndex(n, Shift(SegmentStart(i, n), Dirs[i], t)) == SegmentBase(i, n) + t - 1
  {
  }

  /** Cell `j` of the walk along segment `i` is that segment's `j + 1`-th cell, relative to the centre `o`. */
  lemma WalkLocate(o: Axial, p: MapPos, i: nat, n: nat, j: nat)
    requires i < 6 && j < n
    requires ToAxial(p) == Axial(o.q + SegmentStart(i, n).q, o.r + SegmentStart(i, n).r)
    ensures Offset(o, ToAxial(Walk(p, Dirs[i], n)[j])) == Shift(SegmentStart(i, n), Dirs[i], j + 1)
  {
    WalkAt(p, Dirs[i], n, j);
    ShiftOffset(o, SegmentStart(i, n), Dirs[i], j + 1);
  }

  /** `p` lies on the ring of radius `n` around `o`, at position `k` of the walk around it. */
  ghost predicate OnRingAt(o: Axial, n: int, p: MapPos, k: int) {
    var a := Offset(o, ToAxial(p));
    HexDistance(Axial(0, 0), a) == n && RingIndex(n, a) == k
  }

  /** Every cell of `w` lies on the ring of radius `n` around `o`, at positions `base` onwards. */
  ghost predicate Placed(o: Axial, n: int, w: seq<MapPos>, base: int) {
    forall j :: 0 <= j < |w| ==> OnRingAt(o, n, w[j], base + j)
  }

  lemma PlacedConcat(o: Axial, n: int, a: seq<MapPos>, b: seq<MapPos>, base: int)
    requires Placed(o, n, a, base) && Placed(o, n, b, base + |a|)
    ensures Placed(o, n, a + b, base)
  {
    forall j | 0 <= j < |a + b|
      ensures OnRingAt(o, n, (a + b)[j], base + j)
    {
      if j < |a| {
        assert (a + b)[j] == a[j];
      } else {
        assert (a + b)[j] == b[j - |a|];
      }
    }
  }

  /** The `t`-th cell of segment `i` lies on the ring, at position `k` of the walk around it. */
  lemma SegmentCellOnRing(o: Axial, i: nat, n: nat, t: int, p: MapPos, k: int)
    requires i < 6 && 1 <= t <= n && k == SegmentBase(i, n) + t - 1
    requires Offset(o, ToAxial(p)) == Shift(SegmentStart(i, n), Dirs[i], t)
    ensures OnRingAt(o, n, p, k)
  {
    SegmentShiftRadius(i, n, t);
    SegmentShiftIndex(i, n, t);
  }

  /** The walk along segment `i`, started at that segment's reference position, is placed there. */
  lemma PlacedWalk(o: Axial, p: MapPos, i: nat, n: nat)
    requires i < 6
    requires ToAxial(p) == Axial(o.q + SegmentStart(i, n).q, o.r + SegmentStart(i, n).r)
    ensures Placed(o, n, Walk(p, Dirs[i], n), SegmentBase(i, n))
  {
    forall j | 0 <= j < n
      ensures OnRingAt(o, n, Walk(p, Dirs[i], n)[j], SegmentBase(i, n) + j)
    {
      WalkLocate(o, p, i, n, j);
      SegmentCellOnRing(o, i, n, j + 1, Walk(p, Dirs[i], n)[j], SegmentBase(i, n) + j);
    }
  }

  /** The walks from segment `i` on, started at that segment's reference position, are placed. */
  lemma {:induction false} PlacedWalks(o: Axial, p: MapPos, i: nat, n: nat)
    requires i < 6
    requires ToAxial(p) == Axial(o.q + SegmentStart(i, n).q, o.r + SegmentStart(i, n).r)
    ensures Placed(o, n, Walks(p, i, n), SegmentBase(i, n))
    decreases 6 - i
  {
    var a := Walk(p, Dirs[i], n);
    var q := WalkEnd(p, Dirs[i], n);
    var b := Walks(q, i + 1, n);
    PlacedWalk(o, p, i, n);
    if i < 5 {
      SegmentStepAt(o, p, i, n);
      PlacedWalks(o, q, i + 1, n);
    }
    PlacedConcat(o, n, a, b, SegmentBase(i, n));
    assert Walks(p, i, n) == a + b;
  }

  /** Cell `j` of a ring lies at the ring's radius, at position `j` of the walk around it. */
  lemma RingPlaced(c: MapPos, n: nat)
    ensures Placed(ToAxial(c), n, Ring(c, n), 0)
  {
    PlacedWalks(ToAxial(c), RingStart(c, n), 0, n);
  }

  /**
    Every cell of the ring of radius `n` is at hex distance `n` from the centre,
    measured with floor division of the row as `ToAxial` does.
   */
  lemma RingAtHexDistance(c: MapPos, n: nat, j: nat)
    requires j < |Ring(c, n)|
    ensures HexDistance(ToAxial(c), ToAxial(Ring(c, n)[j])) == n
  {
    RingPlaced(c, n);
    assert OnRingAt(ToAxial(c), n, Ring(c, n)[j], j);
  }

  /** A ring visits no cell twice. */
  lemma RingNoDuplicates(c: MapPos, n: nat, j: nat, k: nat)
    requires j < |Ring(c, n)| && k < |Ring(c, n)|
    requires Ring(c, n)[j] == Ring(c, n)[k]
    ensures j == k
  {
    RingPlaced(c, n);
    assert OnRingAt(ToAxial(c), n, Ring(c, n)[j], j);
    assert OnRingAt(ToAxial(c), n, Ring(c, n)[k], k);
  }

  /** For a centre and a cell on rows `y >= 0`, the source's `distance` also puts the cell at the ring's radius. */
  lemma RingAtDistanceOnBoard(c: MapPos, n: nat, j: nat)
    requires j < |Ring(c, n)| && c.y >= 0 && Ring(c, n)[j].y >= 0
    ensures Distance(c, Ring(c, n)[j]) == n
  {
    RingAtHexDistance(c, n, j);
    DistanceIsHexDistanceOnBoard(c, Ring(c, n)[j]);
  }

  /** Rings `a ..= b` hold `6a + 6(a+1) + ... + 6b` cells. */
  lemma {:induction false} RingsLength(c: MapPos, a: nat, b: int)
    requires a <= b + 1
    ensures |Rings(c, a, b)| == 3 * (b * (b + 1) - (a - 1) * a)
    decreases b - a
  {
    if a <= b {
      RingLength(c, a);
      RingsLength(c, a + 1, b);
      assert (a + 1 - 1) * (a + 1) == (a - 1) * a + 2 * a;
    }
  }

  /** The spiral of radius `r` has `3 r (r + 1)` cells. */
  lemma SpiralLength(c: MapPos, r: nat)
    ensures |Rings(c, 1, r)| == 3 * (r * (r + 1))
  {
    RingsLength(c, 1, r);
    assert (1 - 1) * 1 == 0;
  }

  /** Walking segment `i` of a ring of radius 1: one step, then the remaining segments. */
  lemma WalksOneStep(p: MapPos, i: nat, a: MapPos)
    requires i < 6 && Neighbour(p, Dirs[i]) == a
    ensures Walks(p, i, 1) == [a] + Walks(a, i + 1, 1)
  {
    assert Walk(a, Dirs[i], 0) == [];
    assert Walk(p, Dirs[i], 1) == [a];
  }

  /** The six steps of the ring of radius 1 around a centre on an even row. */
  lemma RingOneSteps(x: int, y: int)
    requires y % 2 == 0
    ensures Neighbour(MapPos(x - 1, y), Dirs[0]) == MapPos(x, y - 1)
    ensures Neighbour(MapPos(x, y - 1), Dirs[1]) == MapPos(x + 1, y - 1)
    ensures Neighbour(MapPos(x + 1, y - 1), Dirs[2]) == MapPos(x + 1, y)
    ensures Neighbour(MapPos(x + 1, y), Dirs[3]) == MapPos(x + 1, y + 1)
    ensures Neighbour(MapPos(x + 1, y + 1), Dirs[4]) == MapPos(x, y + 1)
    ensures Neighbour(MapPos(x, y + 1), Dirs[5]) == MapPos(x - 1, y)
  {
    assert (y - 1) % 2 == 1 && (y + 1) % 2 == 1;
  }

  /** A ring of radius 1 is its six one-step walks: each cell is the neighbour of the one before in the next direction. */
  lemma RingOneFromSteps(c: MapPos, p0: MapPos, p1: MapPos, p2: MapPos, p3: MapPos, p4: MapPos, p5: MapPos)
    requires Neighbour(RingStart(c, 1), Dirs[0]) == p0 && Neighbour(p0, Dirs[1]) == p1 && Neighbour(p1, Dirs[2]) == p2
    requires Neighbour(p2, Dirs[3]) == p3 && Neighbour(p3, Dirs[4]) == p4 && Neighbour(p4, Dirs[5]) == p5
    ensures Ring(c, 1) == [p0, p1, p2, p3, p4, p5]
  {
    WalksOneStep(p4, 5, p5);
    WalksOneStep(p3, 4, p4);
    WalksOneStep(p2, 3, p3);
    WalksOneStep(p1, 2, p2);
    WalksOneStep(p0, 1, p1);
    WalksOneStep(RingStart(c, 1), 0, p0);
  }

  /** The ring of radius 1 around a centre on an even row. */
  lemma RingOneEvenRow(x: int, y: int)
    requires y % 2 == 0
    ensures Ring(MapPos(x, y), 1)
         == [MapPos(x, y - 1), MapPos(x + 1, y - 1), MapPos(x + 1, y), MapPos(x + 1, y + 1), MapPos(x, y + 1), MapPos(x - 1, y)]
  {
    RingOneSteps(x, y);
    RingOneFromSteps(MapPos(x, y), MapPos(x, y - 1), MapPos(x + 1, y - 1), MapPos(x + 1, y), MapPos(x + 1, y + 1), MapPos(x, y + 1), MapPos(x - 1, y));
  }

  /** The ring of radius 1 around (0, 0), as pinned down by the source's test. */
  lemma RingOneLiteral()
    ensures Ring(MapPos(0, 0), 1)
         == [MapPos(0, -1), MapPos(1, -1), MapPos(1, 0), MapPos(1, 1), MapPos(0, 1), MapPos(-1, 0)]
  {
    RingOneEvenRow(0, 0);
  }

  /** Walking segment `i` of a ring of radius 2: two steps, then the remaining segments. */
  lemma WalksTwoStep(p: MapPos, i: nat, a: MapPos, b: MapPos)
    requires i < 6 && Neighbour(p, Dirs[i]) == a && Neighbour(a, Dirs[i]) == b
    ensures Walks(p, i, 2) == [a, b] + Walks(b, i + 1, 2)
  {
    assert Walk(b, Dirs[i], 0) == [];
    assert Walk(p, Dirs[i], 2) == [a, b];
  }

  /** The twelve steps of the ring of radius 2 around a centre on an even row. */
  lemma RingTwoSteps(x: int, y: int)
    requires y % 2 == 0
    ensures Neighbour(MapPos(x - 2, y), Dirs[0]) == MapPos(x - 1, y - 1)
    ensures Neighbour(MapPos(x - 1, y - 1), Dirs[0]) == MapPos(x - 1, y - 2)
    ensures Neighbour(MapPos(x - 1, y - 2), Dirs[1]) == MapPos(x, y - 2)
    ensures Neighbour(MapPos(x, y - 2), Dirs[1]) == MapPos(x + 1, y - 2)
    ensures Neighbour(MapPos(x + 1, y - 2), Dirs[2]) == MapPos(x + 2, y - 1)
    ensures Neighbour(MapPos(x + 2, y - 1), Dirs[2]) == MapPos(x + 2, y)
    ensures Neighbour(MapPos(x + 2, y), Dirs[3]) == MapPos(x + 2, y + 1)
    ensures Neighbour(MapPos(x + 2, y + 1), Dirs[3]) == MapPos(x + 1, y + 2)
    ensures Neighbour(MapPos(x + 1, y + 2), Dirs[4]) == MapPos(x, y + 2)
    ensures Neighbour(MapPos(x, y + 2), Dirs[4]) == MapPos(x - 1, y + 2)
    ensures Neighbour(MapPos(x - 1, y + 2), Dirs[5]) == MapPos(x - 1, y + 1)
    ensures Neighbour(MapPos(x - 1, y + 1), Dirs[5]) == MapPos(x - 2, y)
  {
    assert (y - 1) % 2 == 1 && (y - 2) % 2 == 0 && (y + 1) % 2 == 1 && (y + 2) % 2 == 0;
  }

  /** The last two segments of the ring of radius 2 around a centre on an even row. */
  lemma RingTwoEvenRowLast(x: int, y: int)
    requires y % 2 == 0
    ensures Walks(MapPos(x + 1, y + 2), 4, 2)
         == [MapPos(x, y + 2), MapPos(x - 1, y + 2), MapPos(x - 1, y + 1), MapPos(x - 2, y)]
  {
    RingTwoSteps(x, y);
    WalksTwoStep(MapPos(x + 1, y + 2), 4, MapPos(x, y + 2), MapPos(x - 1, y + 2));
    WalksTwoStep(MapPos(x - 1, y + 2), 5, MapPos(x - 1, y + 1), MapPos(x - 2, y));
  }

  /** The last four segments of the ring of radius 2 around a centre on an even row. */
  lemma RingTwoEvenRowMiddle(x: int, y: int)
    requires y % 2 == 0
    ensures Walks(MapPos(x + 1, y - 2), 2, 2)
         == [MapPos(x + 2, y - 1), MapPos(x + 2, y), MapPos(x + 2, y + 1), MapPos(x + 1, y + 2),
             MapPos(x, y + 2), MapPos(x - 1, y + 2), MapPos(x - 1, y + 1), MapPos(x - 2, y)]
  {
    RingTwoSteps(x, y);
    RingTwoEvenRowLast(x, y);
    WalksTwoStep(MapPos(x + 1, y - 2), 2, MapPos(x + 2, y - 1), MapPos(x + 2, y));
    WalksTwoStep(MapPos(x + 2, y), 3, MapPos(x + 2, y + 1), MapPos(x + 1, y + 2));
  }

  /** All six segments of the ring of radius 2 around a centre on an even row. */
  lemma RingTwoEvenRowWalks(x: int, y: int)
    requires y % 2 == 0
    ensures Walks(MapPos(x - 2, y), 0, 2)
         == [MapPos(x - 1, y - 1), MapPos(x - 1, y - 2), MapPos(x, y - 2), MapPos(x + 1, y - 2),
             MapPos(x + 2, y - 1), MapPos(x + 2, y), MapPos(x + 2, y + 1), MapPos(x + 1, y + 2),
             MapPos(x, y + 2), MapPos(x - 1, y + 2), MapPos(x - 1, y + 1), MapPos(x - 2, y)]
  {
    RingTwoSteps(x, y);
    RingTwoEvenRowMiddle(x, y);
    WalksTwoStep(MapPos(x - 2, y), 0, MapPos(x - 1, y - 1), MapPos(x - 1, y - 2));
    WalksTwoStep(MapPos(x - 1, y - 2), 1, MapPos(x, y - 2), MapPos(x + 1, y - 2));
  }

  /** The ring of radius 2 around a centre on an even row, cell by cell. */
  lemma RingTwoEvenRow(c: MapPos)
    requires c.y % 2 == 0
    ensures Ring(c, 2)
         == [MapPos(c.x - 1, c.y - 1), MapPos(c.x - 1, c.y - 2), MapPos(c.x, c.y - 2), MapPos(c.x + 1, c.y - 2),
             MapPos(c.x + 2, c.y - 1), MapPos(c.x + 2, c.y), MapPos(c.x + 2, c.y + 1), MapPos(c.x + 1, c.y + 2),
             MapPos(c.x, c.y + 2), MapPos(c.x - 1, c.y + 2), MapPos(c.x - 1, c.y + 1), MapPos(c.x - 2, c.y)]
  {
    RingTwoEvenRowWalks(c.x, c.y);
    assert RingStart(c, 2) == MapPos(c.x - 2, c.y);
  }

  /** The ring of radius 2 around (0, 0), as pinned down by the source's test. */
  lemma RingTwoLiteral()
    ensures Ring(MapPos(0, 0), 2)
         == [MapPos(-1, -1), MapPos(-1, -2), MapPos(0, -2), MapPos(1, -2), MapPos(2, -1), MapPos(2, 0),
             MapPos(2, 1), MapPos(1, 2), MapPos(0, 2), MapPos(-1, 2), MapPos(-1, 1), MapPos(-2, 0)]
  {
    RingTwoEvenRow(MapPos(0, 0));
  }

  /** Six cells followed by twelve, written out one by one. */
  lemma AppendSixTwelve(a: seq<MapPos>, b: seq<MapPos>)
    requires |a| == 6 && |b| == 12
    ensures a + b == [a[0], a[1], a[2], a[3], a[4], a[5], b[0], b[1], b[2], b[3], b[4], b[5],
                      b[6], b[7], b[8], b[9], b[10], b[11]]
  {
  }

  /** The spiral of radius 2 around a centre on an even row: ring 1 then ring 2. */
  lemma SpiralTwoEvenRow(x: int, y: int)
    requires y % 2 == 0
    ensures Rings(MapPos(x, y), 1, 2)
         == [MapPos(x, y - 1), MapPos(x + 1, y - 1), MapPos(x + 1, y), MapPos(x + 1, y + 1), MapPos(x, y + 1), MapPos(x - 1, y),
             MapPos(x - 1, y - 1), MapPos(x - 1, y - 2), MapPos(x, y - 2), MapPos(x + 1, y - 2),
             MapPos(x + 2, y - 1), MapPos(x + 2, y), MapPos(x + 2, y + 1), MapPos(x + 1, y + 2),
             MapPos(x, y + 2), MapPos(x - 1, y + 2), MapPos(x - 1, y + 1), MapPos(x - 2, y)]
  {
    var c := MapPos(x, y);
    var r1 := [MapPos(x, y - 1), MapPos(x + 1, y - 1), MapPos(x + 1, y), MapPos(x + 1, y + 1), MapPos(x, y + 1), MapPos(x - 1, y)];
    var r2 := [MapPos(x - 1, y - 1), MapPos(x - 1, y - 2), MapPos(x, y - 2), MapPos(x + 1, y - 2),
               MapPos(x + 2, y - 1), MapPos(x + 2, y), MapPos(x + 2, y + 1), MapPos(x + 1, y + 2),
               MapPos(x, y + 2), MapPos(x - 1, y + 2), MapPos(x - 1, y + 1), MapPos(x - 2, y)];
    RingOneEvenRow(x, y);
    RingTwoEvenRowWalks(x, y);
    assert RingStart(c, 2) == MapPos(x - 2, y);
    assert Ring(c, 2) == r2;
    assert Rings(c, 1, 2) == r1 + r2 by {
      assert Rings(c, 2, 2) == Ring(c, 2) + Rings(c, 3, 2);
    }
    AppendSixTwelve(r1, r2);
  }

  /**
    The spiral of radius 2 around the origin `c`: ring 1 then ring 2, eighteen
    cells. The centre is a parameter pinned to (0, 0) rather than a literal:
    with a literal centre Dafny unfolds the recursive `Rings` on constants all
    the way down, which costs far more than the proof through `SpiralTwoEvenRow`.
   */
  lemma SpiralTwoLiteral(c: MapPos)
    requires c == MapPos(0, 0)
    ensures Rings(c, 1, 2)
         == [MapPos(0, -1), MapPos(1, -1), MapPos(1, 0), MapPos(1, 1), MapPos(0, 1), MapPos(-1, 0),
             MapPos(-1, -1), MapPos(-1, -2), MapPos(0, -2), MapPos(1, -2), MapPos(2, -1), MapPos(2, 0),
             MapPos(2, 1), MapPos(1, 2), MapPos(0, 2), MapPos(-1, 2), MapPos(-1, 1), MapPos(-2, 0)]
  {
    SpiralTwoEvenRow(c.x, c.y);
  }

  // ---------------------------------------------------------------------------
  // The ring iterator

  /** `RingIter`, with the direction iterator's position kept as the number of directions it has handed out. */
  class RingIter {
    var cursor: MapPos
    var segmentIndex: int
    var dirIter: nat
    const radius: int
    var dir: Dir

    ghost predicate Valid()
      reads this
    {
      0 <= segmentIndex <= radius && 1 <= dirIter <= 6 && dir == Dirs[dirIter - 1]
    }

    /** The positions the iterator has still to yield. */
    ghost function Remaining(): seq<MapPos>
      reads this
      requires Valid()
    {
      Steps(cursor, segmentIndex, dirIter, radius)
    }

    /** `ring_iter`: the cursor starts `radius` cells west of `pos`, heading south-east. */
    constructor (pos: MapPos, radius: int)
      requires radius >= 0
      ensures Valid() && this.radius == radius
      ensures Remaining() == Steps(RingStart(pos, radius), 0, 1, radius)
      ensures radius >= 1 ==> Remaining() == Ring(pos, radius)
      ensures radius == 0 ==> |Remaining()| == 5
    {
      this.cursor := RingStart(pos, radius);
      this.radius := radius;
      this.segmentIndex := 0;
      this.dirIter := 1;
      this.dir := Dirs[0];
      new;
      if radius >= 1 {
        RingIterYieldsRing(pos, radius);
      } else {
        RingIterRadiusZero(RingStart(pos, radius));
      }
    }

    /** The direction iterator's `next`: the next direction in order, then `None` for ever. */
    method NextDir() returns (d: Option<Dir>)
      modifies this`dirIter
      ensures old(dirIter) < 6 ==> d == Some(Dirs[old(dirIter)]) && dirIter == old(dirIter) + 1
      ensures old(dirIter) >= 6 ==> d == None && dirIter == old(dirIter)
    {
      if dirIter < 6 {
        d := Some(Dirs[dirIter]);
        dirIter := dirIter + 1;
      } else {
        d := None;
      }
    }

    /** `simple_step`: one more step in the current direction. */
    method SimpleStep() returns (r: Option<MapPos>)
      modifies this`cursor, this`segmentIndex
      ensures cursor == Neighbour(old(cursor), dir)
      ensures segmentIndex == old(segmentIndex) + 1
      ensures r == Some(cursor)
    {
      cursor := Neighbour(cursor, dir);
      segmentIndex := segmentIndex + 1;
      r := Some(cursor);
    }

    /** `rotate`: a last step in the current direction, then turn to `d` and restart the segment. */
    method Rotate(d: Dir) returns (r: Option<MapPos>)
      modifies this`cursor, this`segmentIndex, this`dir
      ensures segmentIndex == 0
      ensures cursor == Neighbour(old(cursor), old(dir))
      ensures dir == d
      ensures r == Some(cursor)
    {
      segmentIndex := 0;
      cursor := Neighbour(cursor, dir);
      dir := d;
      r := Some(cursor);
    }

    /** `next`: yields the ring cell by cell, then `None` on every later call. */
    method Next() returns (r: Option<MapPos>)
      requires Valid()
      modifies this
      ensures Valid()
      ensures old(Remaining()) == [] ==> r == None && Remaining() == []
      ensures old(Remaining()) != [] ==> r == Some(old(Remaining())[0]) && Remaining() == old(Remaining())[1..]
    {
      if segmentIndex >= radius - 1 {
        var d := NextDir();
        if d.Some? {
          r := Rotate(d.value);
        } else if segmentIndex == radius {
          r := None;
        } else {
          r := SimpleStep();
        }
      } else {
        r := SimpleStep();
      }
    }
  }

  // ---------------------------------------------------------------------------
  // The spiral iterator

  /** Rings `k ..= last` begin with ring `k`, which is not empty, and go on with the larger rings. */
  lemma RingsStep(c: MapPos, k: int, last: int)
    requires 1 <= k <= last
    ensures Rings(c, k, last) != [] && Rings(c, k, last)[0] == Ring(c, k)[0]
    ensures Rings(c, k, last)[1..] == Ring(c, k)[1..] + Rings(c, k + 1, last)
  {
    RingLength(c, k);
    TailOfConcat(Ring(c, k), Rings(c, k + 1, last));
  }

  lemma TailOfConcat(a: seq<MapPos>, b: seq<MapPos>)
    requires a != []
    ensures (a + b)[0] == a[0] && (a + b)[1..] == a[1..] + b
  {
  }

  /** `SpiralIter`: the rings of radius 1, 2, ..., `lastRadius` around `origin`, one after the other. */
  class SpiralIter {
    var ringIter: RingIter
    var radius: int
    const lastRadius: int
    const origin: MapPos

    ghost predicate Valid()
      reads this, ringIter
    {
      ringIter.Valid() && 1 <= radius && 1 <= lastRadius
      && (radius > lastRadius ==> ringIter.Remaining() == [])
    }

    /** The positions the iterator has still to yield: the rest of the current ring, then the larger rings. */
    ghost function Remaining(): seq<MapPos>
      reads this, ringIter
      requires Valid()
    {
      ringIter.Remaining() + Rings(origin, radius + 1, lastRadius)
    }

    /** `spiral_iter`: starts on the ring of radius 1; a radius below 1 is a panic. */
    constructor (pos: MapPos, radius: int)
      requires radius >= 1
      ensures Valid() && fresh(ringIter)
      ensures this.origin == pos && lastRadius == radius
      ensures Remaining() == Rings(pos, 1, radius)
    {
      this.ringIter := new RingIter(pos, 1);
      this.radius := 1;
      this.lastRadius := radius;
      this.origin := pos;
    }

    /** `next`: the next cell of the current ring, or the first cell of the next ring, or `None` past the last one. */
    method Next() returns (r: Option<MapPos>)
      requires Valid()
      modifies this, ringIter
      ensures Valid() && (ringIter == old(ringIter) || fresh(ringIter))
      ensures old(Remaining()) == [] ==> r == None && Remaining() == []
      ensures old(Remaining()) != [] ==> r == Some(old(Remaining())[0]) && Remaining() == old(Remaining())[1..]
    {
      ghost var rest := Rings(origin, radius + 1, lastRadius);
      r := NextInRing();
      if r.None? {
        r := Advance(rest);
      }
    }

    /** The current ring's `next`: its next cell, which is the spiral's; or `None` once it is exhausted, leaving the larger rings. */
    method NextInRing() returns (r: Option<MapPos>)
      requires Valid()
      modifies ringIter
      ensures Valid() && radius == old(radius)
      ensures r.Some? ==> old(Remaining()) != [] && r == Some(old(Remaining())[0]) && Remaining() == old(Remaining())[1..]
      ensures r.None? ==> ringIter.Remaining() == [] && old(Remaining()) == Rings(origin, radius + 1, lastRadius)
    {
      ghost var rest := Rings(origin, radius + 1, lastRadius);
      ghost var current := ringIter.Remaining();
      assert Remaining() == current + rest;
      r := ringIter.Next();
      if r.Some? {
        TailOfConcat(current, rest);
      } else {
        assert current == [];
        assert current + rest == rest;
      }
    }

    /** The current ring is exhausted: move to the next radius, and yield the first of the cells `rest` still to come, if any. */
    method Advance(ghost rest: seq<MapPos>) returns (r: Option<MapPos>)
      requires Valid() && ringIter.Remaining() == [] && rest == Rings(origin, radius + 1, lastRadius)
      modifies this
      ensures Valid() && (ringIter == old(ringIter) || fresh(ringIter))
      ensures rest == [] ==> r == None && Remaining() == []
      ensures rest != [] ==> r == Some(rest[0]) && Remaining() == rest[1..]
    {
      radius := radius + 1;
      if radius > lastRadius {
        r := None;
      } else {
        r := StartRing();
      }
    }

    /** The current ring is exhausted: start the ring of radius `radius` and yield its first cell. */
    method StartRing() returns (r: Option<MapPos>)
      requires Valid() && ringIter.Remaining() == [] && radius <= lastRadius
      modifies this
      ensures Valid() && fresh(ringIter) && radius == old(radius)
      ensures Rings(origin, radius, lastRadius) != []
      ensures r == Some(Rings(origin, radius, lastRadius)[0])
      ensures Remaining() == Rings(origin, radius, lastRadius)[1..]
    {
      RingsStep(origin, radius, lastRadius);
      ringIter := new RingIter(origin, radius);
      r := ringIter.Next();
    }
  }
}
