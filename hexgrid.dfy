/**
  The hexagonal map of game.py in axial coordinates: the six neighbour
  directions, the order in which `init_tiles` visits the cells of each ring,
  and the facts about that order the game relies on (how many cells, at which
  distance, all distinct), together with the coordinate-to-index dictionary
  that is built alongside the tile list.
*/
module HexGrid {
  import opened Common

  type Coord = (int, int)

  /** game.py's HEX_DIRECTIONS, in its order: east, north-east, north-west, west, south-west, south-east. */
  const Directions: seq<Coord> := [(1, 0), (1, -1), (0, -1), (-1, 0), (-1, 1), (0, 1)]

  /** Hex distance of a cell from the centre (0, 0). */
  function Distance(c: Coord): nat {
    Max(Abs(c.0), Max(Abs(c.1), Abs(c.0 + c.1)))
  }

  function Add(c: Coord, d: Coord): Coord { (c.0 + d.0, c.1 + d.1) }

  /**
    The cell reached after j steps along side s of ring k. Each ring starts at
    (-k, k) and walks k steps in each of the six directions in turn;
    Cell(k, s, k) is where side s ends and side s + 1 begins.
  */
  function Cell(k: nat, s: nat, j: nat): Coord
    requires s < 6 && j <= k
  {
    var k: int, j: int := k, j;
    if s == 0 then (-k + j, k)
    else if s == 1 then (j, k - j)
    else if s == 2 then (k, -j)
    else if s == 3 then (k - j, -k)
    else if s == 4 then (-j, -k + j)
    else (-k, j)
  }

  /** The side a cell of ring k lies on (every cell of the ring on exactly one side). */
  function SideOf(k: nat, c: Coord): nat {
    var (q, r) := c;
    var k: int := k;
    if r == k && q < 0 then 0
    else if 0 <= q < k && q + r == k then 1
    else if q == k && -k < r <= 0 then 2
    else if r == -k && q > 0 then 3
    else if q + r == -k && -k < q <= 0 then 4
    else 5
  }

  /** One step in direction s from the j-th cell of side s reaches the next cell of that side. */
  lemma CellStep(k: nat, s: nat, j: nat, q: int, r: int)
    requires s < 6 && j < k && (q, r) == Cell(k, s, j)
    ensures (q + Directions[s].0, r + Directions[s].1) == Cell(k, s, j + 1)
  {
  }

  lemma CellCorner(k: nat, s: nat)
    requires s < 5
    ensures Cell(k, s, k) == Cell(k, s + 1, 0)
  {
  }

  lemma CellOnRing(k: nat, s: nat, j: nat)
    requires 1 <= k && s < 6 && j < k
    ensures Distance(Cell(k, s, j)) == k
    ensures SideOf(k, Cell(k, s, j)) == s
  {
  }

  /** The k cells visited along side s of ring k. */
  function Side(k: nat, s: nat): (cells: seq<Coord>)
    requires s < 6
    ensures |cells| == k
  {
    seq(k, j requires 0 <= j < k => Cell(k, s, j))
  }

  /** The cells of ring k visited along its first d sides. */
  function RingPrefix(k: nat, d: nat): seq<Coord>
    requires d <= 6
  {
    if d == 0 then [] else RingPrefix(k, d - 1) + Side(k, d - 1)
  }

  /** Ring k in visiting order. */
  function Ring(k: nat): seq<Coord> { RingPrefix(k, 6) }

  /** The cells of a map with n rings, in the order `init_tiles` appends them. */
  function Spiral(n: nat): seq<Coord> {
    if n == 0 then [(0, 0)] else Spiral(n - 1) + Ring(n)
  }

  /** Index of the first cell of ring k in the spiral. */
  function RingStart(k: nat): nat {
    if k == 0 then 0 else 1 + 3 * (k - 1) * k
  }

  lemma RingStartNext(k: nat)
    requires 1 <= k
    ensures RingStart(k + 1) == RingStart(k) + 6 * k == 1 + 3 * k * (k + 1)
  {
    assert 3 * (k - 1) * k + 6 * k == 3 * k * (k + 1) by {
      assert (k - 1) * k == k * k - k;
      assert k * (k + 1) == k * k + k;
    }
  }

  predicate Distinct(cs: seq<Coord>) {
    forall i, j :: 0 <= i < j < |cs| ==> cs[i] != cs[j]
  }

  /** Two duplicate-free lists with no cell in common concatenate to a duplicate-free list. */
  lemma DistinctConcat(a: seq<Coord>, b: seq<Coord>)
    requires Distinct(a) && Distinct(b)
    requires forall i, j :: 0 <= i < |a| && 0 <= j < |b| ==> a[i] != b[j]
    ensures Distinct(a + b)
  {
    forall i, j | 0 <= i < j < |a + b|
      ensures (a + b)[i] != (a + b)[j]
    {
      if j < |a| {
        assert (a + b)[i] == a[i] && (a + b)[j] == a[j];
      } else if i >= |a| {
        assert (a + b)[i] == b[i - |a|] && (a + b)[j] == b[j - |a|];
      } else {
        assert (a + b)[i] == a[i] && (a + b)[j] == b[j - |a|];
      }
    }
  }

  /** Every cell of cs is on ring k, on one of its first d sides. */
  predicate OnSides(cs: seq<Coord>, k: nat, d: nat) {
    forall i :: 0 <= i < |cs| ==> Distance(cs[i]) == k && SideOf(k, cs[i]) < d
  }

  /** Side s of ring k: k distinct cells, all on ring k and on side s. */
  lemma SideFacts(k: nat, s: nat)
    requires 1 <= k && s < 6
    ensures Distinct(Side(k, s))
    ensures OnSides(Side(k, s), k, s + 1)
    ensures forall j :: 0 <= j < k ==> SideOf(k, Side(k, s)[j]) == s
  {
    var side := Side(k, s);
    forall j | 0 <= j < k
      ensures Distance(side[j]) == k && SideOf(k, side[j]) == s
    {
      CellOnRing(k, s, j);
    }
    forall i, j | 0 <= i < j < k
      ensures side[i] != side[j]
    {
      assert side[i] == Cell(k, s, i) && side[j] == Cell(k, s, j);
    }
  }

  /** Cells on the first d sides are not on side d. */
  lemma SidesDisjoint(a: seq<Coord>, b: seq<Coord>, k: nat, d: nat)
    requires OnSides(a, k, d)
    requires forall j :: 0 <= j < |b| ==> SideOf(k, b[j]) == d
    ensures forall i, j :: 0 <= i < |a| && 0 <= j < |b| ==> a[i] != b[j]
  {
  }

  lemma OnSidesConcat(a: seq<Coord>, b: seq<Coord>, k: nat, d: nat)
    requires OnSides(a, k, d) && OnSides(b, k, d + 1)
    ensures OnSides(a + b, k, d + 1)
  {
    forall i | 0 <= i < |a + b|
      ensures Distance((a + b)[i]) == k && SideOf(k, (a + b)[i]) < d + 1
    {
      if i < |a| {
        assert (a + b)[i] == a[i];
      } else {
        assert (a + b)[i] == b[i - |a|];
      }
    }
  }

  lemma {:induction false} RingPrefixFacts(k: nat, d: nat)
    requires 1 <= k && d <= 6
    ensures |RingPrefix(k, d)| == d * k
    ensures Distinct(RingPrefix(k, d))
    ensures OnSides(RingPrefix(k, d), k, d)
  {
    if d > 0 {
      RingPrefixFacts(k, d - 1);
      var before, side := RingPrefix(k, d - 1), Side(k, d - 1);
      assert RingPrefix(k, d) == before + side;
      assert |before + side| == d * k by {
        assert (d - 1) * k + k == d * k;
      }
      SideFacts(k, d - 1);
      SidesDisjoint(before, side, k, d - 1);
      DistinctConcat(before, side);
      OnSidesConcat(before, side, k, d - 1);
    }
  }

  /** Every cell of ring k is at distance k, and the ring has 6k distinct cells. */
  lemma RingFacts(k: nat)
    requires 1 <= k
    ensures |Ring(k)| == 6 * k
    ensures Distinct(Ring(k))
    ensures forall i :: 0 <= i < |Ring(k)| ==> Distance(Ring(k)[i]) == k
  {
    RingPrefixFacts(k, 6);
    assert forall i :: 0 <= i < |Ring(k)| ==> Distance(Ring(k)[i]) == k;
  }

  /**
    The spiral of n rings has 1 + 3n(n+1) distinct cells; it starts at the
    centre, and a cell at distance d sits in the block of ring d.
  */
  lemma {:induction false} SpiralFacts(n: nat)
    ensures |Spiral(n)| == 1 + 3 * n * (n + 1) == RingStart(n + 1)
    ensures Spiral(n)[0] == (0, 0)
    ensures Distinct(Spiral(n))
    ensures forall i :: 0 <= i < |Spiral(n)| ==>
              Distance(Spiral(n)[i]) <= n &&
              RingStart(Distance(Spiral(n)[i])) <= i < RingStart(Distance(Spiral(n)[i]) + 1)
  {
    if n > 0 {
      SpiralFacts(n - 1);
      RingFacts(n);
      RingStartNext(n);
      var inner, ring := Spiral(n - 1), Ring(n);
      assert Spiral(n) == inner + ring;
      assert |inner| == RingStart(n);
      DistinctConcat(inner, ring);
      forall i | 0 <= i < |inner + ring|
        ensures Distance((inner + ring)[i]) <= n
        ensures RingStart(Distance((inner + ring)[i])) <= i < RingStart(Distance((inner + ring)[i]) + 1)
      {
        if i >= |inner| {
          assert (inner + ring)[i] == ring[i - |inner|];
        }
      }
    }
  }

  /** Python's dict filled by `d[c] = i` for i = 0, 1, ...: a later index overwrites an earlier one. */
  function IndexMap(cs: seq<Coord>): map<Coord, int> {
    if cs == [] then map[] else IndexMap(cs[..|cs| - 1])[cs[|cs| - 1] := |cs| - 1]
  }

  /** Every key of the dictionary is a listed cell and maps to an index holding that cell. */
  lemma {:induction false} IndexMapSound(cs: seq<Coord>)
    ensures IndexMap(cs).Keys == set i | 0 <= i < |cs| :: cs[i]
    ensures forall c :: c in IndexMap(cs) ==> 0 <= IndexMap(cs)[c] < |cs| && cs[IndexMap(cs)[c]] == c
  {
    if cs != [] {
      var init := cs[..|cs| - 1];
      IndexMapSound(init);
      assert forall i :: 0 <= i < |init| ==> cs[i] == init[i];
      assert (set i | 0 <= i < |cs| :: cs[i]) == (set i | 0 <= i < |init| :: init[i]) + {cs[|cs| - 1]};
    }
  }

  /** When the cells are distinct the dictionary inverts the list: each cell maps back to its own index. */
  lemma {:induction false} IndexMapInverts(cs: seq<Coord>)
    requires Distinct(cs)
    ensures forall i :: 0 <= i < |cs| ==> cs[i] in IndexMap(cs) && IndexMap(cs)[cs[i]] == i
  {
    if cs != [] {
      var init := cs[..|cs| - 1];
      assert Distinct(init) by {
        assert forall i :: 0 <= i < |init| ==> init[i] == cs[i];
      }
      IndexMapInverts(init);
      forall i | 0 <= i < |cs|
        ensures cs[i] in IndexMap(cs) && IndexMap(cs)[cs[i]] == i
      {
        if i < |init| {
          assert init[i] == cs[i] != cs[|cs| - 1];
        }
      }
    }
  }
}
