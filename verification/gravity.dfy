/** Gravity: the Falling/Resting state machine (`FallStrategy.update`,
    `Map.getBlockOnTopState`, `Map.drop`) and the bottom-up sweep `Map.update`.

    The sweep is proved equal to a closed-form reference that says, per cell,
    what one tick of gravity leaves there (`GravityMatchesReference`).
 */
module Gravity {
  import opened Tiles
  import opened TileMap

  /** The cell under a Stone/Box exists: the one index `getBlockOnTopState` needs. */
  predicate SupportedAt(g: Grid, x: int, y: int)
    requires InBounds(g, x, y)
  {
    IsFallable(g[y][x]) ==> InBounds(g, x, y + 1)
  }

  /** Every Stone/Box in rows `0 .. n-1` has a cell below it. */
  predicate SupportedRows(g: Grid, n: int) {
    forall y, x :: 0 <= y < n && 0 <= y < |g| && 0 <= x < |g[y]| ==> SupportedAt(g, x, y)
  }

  predicate Supported(g: Grid) {
    SupportedRows(g, |g|)
  }

  /** A walled level supports every Stone/Box, since none lies on the bottom row. */
  lemma WalledIsSupported(g: Grid)
    requires Walled(g)
    ensures Supported(g)
  {
  }

  /** `Stone.update` / `Box.update`: the tile reads the cell below it.  Below Air
      it becomes Falling and drops into that cell at once, leaving Air; below
      anything else it becomes Resting and stays.  No other cell changes, and
      every other kind of tile ignores the update. */
  function UpdateTile(g: Grid, x: int, y: int): (r: Grid)
    requires InBounds(g, x, y) && SupportedAt(g, x, y)
    ensures SameShape(g, r)
    ensures forall j, i :: InBounds(g, i, j) && (i != x || (j != y && j != y + 1)) ==> r[j][i] == g[j][i]
    ensures !IsFallable(g[y][x]) ==> r == g
    ensures IsFallable(g[y][x]) && IsAir(g[y + 1][x]) ==>
      r[y][x] == Air && r[y + 1][x] == WithState(g[y][x], Falling)
    ensures IsFallable(g[y][x]) && !IsAir(g[y + 1][x]) ==>
      r[y][x] == WithState(g[y][x], Resting) && r[y + 1][x] == g[y + 1][x]
  {
    var t := g[y][x];
    if !IsFallable(t) then g
    else
      var s := BlockOnTopState(g[y + 1][x]);
      if s == Falling then Replace(Replace(g, x, y + 1, WithState(t, Falling)), x, y, Air)
      else Replace(g, x, y, WithState(t, Resting))
  }

  /** Columns `x ..` of row `y`, left to right. */
  function UpdateRow(g: Grid, y: int, x: nat): (r: Grid)
    requires 0 <= y < |g|
    requires forall i :: x <= i < |g[y]| ==> SupportedAt(g, i, y)
    ensures SameShape(g, r)
    ensures forall j, i :: InBounds(g, i, j) && ((j != y && j != y + 1) || i < x) ==> r[j][i] == g[j][i]
    decreases |g[y]| - x
  {
    if x >= |g[y]| then g
    else
      var g' := UpdateTile(g, x, y);
      assert forall i :: x + 1 <= i < |g'[y]| ==> g'[y][i] == g[y][i] && SupportedAt(g, i, y);
      UpdateRow(g', y, x + 1)
  }

  /** Rows `n-1` down to `0`: the bottom-up sweep, one row at a time. */
  function Sweep(g: Grid, n: nat): (r: Grid)
    requires n <= |g| && SupportedRows(g, n)
    ensures SameShape(g, r)
    decreases n
  {
    if n == 0 then g
    else
      var g' := UpdateRow(g, n - 1, 0);
      assert forall y, x :: 0 <= y < n - 1 && InBounds(g, x, y) ==> g'[y][x] == g[y][x] && SupportedAt(g, x, y);
      Sweep(g', n - 1)
  }

  /** `Map.update`: one gravity tick over the whole grid. */
  function Update(g: Grid): (r: Grid)
    requires Supported(g)
    ensures SameShape(g, r)
  {
    Sweep(g, |g|)
  }

  // ---------------------------------------------------------------------------
  // Closed-form reference for one tick

  /** The Stone/Box at (x, y) drops this tick: the cell below is Air, or holds a
      tile that itself drops (the sweep has already emptied it). */
  predicate Falls(g: Grid, x: int, y: int)
    decreases |g| - y
  {
    && InBounds(g, x, y) && IsFallable(g[y][x]) && InBounds(g, x, y + 1)
    && (IsAir(g[y + 1][x]) || Falls(g, x, y + 1))
  }

  /** What (x, y) holds once its own tile has been dealt with. */
  function Settled(g: Grid, x: int, y: int): Tile
    requires InBounds(g, x, y)
  {
    if Falls(g, x, y) then Air
    else if IsFallable(g[y][x]) then WithState(g[y][x], Resting)
    else g[y][x]
  }

  /** What (x, y) holds after one tick: the tile from above if that one drops,
      otherwise the settled cell. */
  function RefCell(g: Grid, x: int, y: int): Tile
    requires InBounds(g, x, y)
  {
    if y > 0 && Falls(g, x, y - 1) then WithState(g[y - 1][x], Falling)
    else Settled(g, x, y)
  }

  lemma SettledIsAir(g: Grid, x: int, y: int)
    requires InBounds(g, x, y)
    ensures IsAir(Settled(g, x, y)) <==> IsAir(g[y][x]) || Falls(g, x, y)
  {
  }

  /** Rows below `n` swept, rows above untouched, row `n` waiting for the tile
      that may still drop into it from row `n - 1`. */
  ghost predicate SweptFrom(g0: Grid, g: Grid, n: int)
  {
    && SameShape(g0, g)
    && forall y, x :: InBounds(g0, x, y) ==>
      g[y][x] == (if y < n then g0[y][x] else if y == n then Settled(g0, x, y) else RefCell(g0, x, y))
  }

  /** Row `y` swept in columns `< k`, everything below row `y + 1` swept. */
  ghost predicate SweptRowTo(g0: Grid, g: Grid, y: int, k: int)
  {
    && SameShape(g0, g)
    && forall j, i :: InBounds(g0, i, j) ==>
      g[j][i] == (
        if j < y then g0[j][i]
        else if j == y then (if i < k then Settled(g0, i, j) else g0[j][i])
        else if j == y + 1 then (if i < k then RefCell(g0, i, j) else Settled(g0, i, j))
        else RefCell(g0, i, j))
  }

  lemma {:induction false} UpdateTileStep(g0: Grid, g: Grid, y: int, k: int)
    requires Supported(g0) && 0 <= y < |g0| && 0 <= k < |g0[y]|
    requires SweptRowTo(g0, g, y, k)
    ensures InBounds(g, k, y) && SupportedAt(g, k, y)
    ensures SweptRowTo(g0, UpdateTile(g, k, y), y, k + 1)
  {
    assert InBounds(g0, k, y) && SupportedAt(g0, k, y);
    assert g[y][k] == g0[y][k];
    var r := UpdateTile(g, k, y);
    var t := g0[y][k];
    if IsFallable(t) {
      assert InBounds(g0, k, y + 1);
      assert g[y + 1][k] == Settled(g0, k, y + 1);
      SettledIsAir(g0, k, y + 1);
      assert IsAir(g[y + 1][k]) <==> Falls(g0, k, y);
      if Falls(g0, k, y) {
        assert r[y][k] == Settled(g0, k, y);
        assert r[y + 1][k] == RefCell(g0, k, y + 1);
      } else {
        assert r[y][k] == Settled(g0, k, y);
        assert r[y + 1][k] == RefCell(g0, k, y + 1);
      }
    } else {
      assert !Falls(g0, k, y);
      assert r[y][k] == Settled(g0, k, y);
      if InBounds(g0, k, y + 1) {
        assert r[y + 1][k] == RefCell(g0, k, y + 1);
      }
    }
  }

  lemma {:induction false} UpdateRowStep(g0: Grid, g: Grid, y: int, k: nat)
    requires Supported(g0) && 0 <= y < |g0| && k <= |g0[y]|
    requires SweptRowTo(g0, g, y, k)
    ensures 0 <= y < |g| && forall i :: k <= i < |g[y]| ==> SupportedAt(g, i, y)
    ensures SweptRowTo(g0, UpdateRow(g, y, k), y, |g0[y]|)
    decreases |g0[y]| - k
  {
    forall i | k <= i < |g[y]| ensures SupportedAt(g, i, y) {
      assert InBounds(g0, i, y) && SupportedAt(g0, i, y);
    }
    if k < |g0[y]| {
      UpdateTileStep(g0, g, y, k);
      UpdateRowStep(g0, UpdateTile(g, k, y), y, k + 1);
    }
  }

  /** Sweeping row `y` moves the frontier up from row `y + 1` to row `y`. */
  lemma {:induction false} RowSwept(g0: Grid, g: Grid, y: int)
    requires Supported(g0) && 0 <= y < |g0|
    requires SweptFrom(g0, g, y + 1)
    ensures 0 <= y < |g| && forall i :: 0 <= i < |g[y]| ==> SupportedAt(g, i, y)
    ensures SweptFrom(g0, UpdateRow(g, y, 0), y)
  {
    assert SweptRowTo(g0, g, y, 0);
    UpdateRowStep(g0, g, y, 0);
    var r := UpdateRow(g, y, 0);
    forall j, i | InBounds(g0, i, j)
      ensures r[j][i] == (if j < y then g0[j][i] else if j == y then Settled(g0, i, j) else RefCell(g0, i, j))
    {
      if j == y + 1 && i >= |g0[y]| {
        assert !InBounds(g0, i, y);
        assert !Falls(g0, i, y);
      }
    }
  }

  lemma {:induction false} SweepStep(g0: Grid, g: Grid, n: nat)
    requires Supported(g0) && n <= |g0|
    requires SweptFrom(g0, g, n)
    ensures n <= |g| && SupportedRows(g, n)
    ensures SweptFrom(g0, Sweep(g, n), 0)
    decreases n
  {
    forall y, x | 0 <= y < n && 0 <= y < |g| && 0 <= x < |g[y]| ensures SupportedAt(g, x, y) {
      assert InBounds(g0, x, y) && SupportedAt(g0, x, y);
    }
    if n > 0 {
      RowSwept(g0, g, n - 1);
      SweepStep(g0, UpdateRow(g, n - 1, 0), n - 1);
    }
  }

  /** One gravity tick leaves every cell exactly as the closed-form reference says. */
  lemma GravityMatchesReference(g: Grid)
    requires Supported(g)
    ensures SameShape(g, Update(g))
    ensures forall y, x :: InBounds(g, x, y) ==> Update(g)[y][x] == RefCell(g, x, y)
  {
    SweepStep(g, g, |g|);
  }

  // ---------------------------------------------------------------------------
  // Consequences of one tick

  /** The sweep never alters a cell that holds neither Air nor a Stone/Box
      (Unbreakable, Flux, PlayerTile, keys, locks), and never creates such a tile. */
  lemma SweepKeepsFixedTiles(g: Grid)
    requires Supported(g)
    ensures forall y, x :: InBounds(g, x, y) && !IsAir(g[y][x]) && !IsFallable(g[y][x]) ==>
      Update(g)[y][x] == g[y][x]
    ensures forall y, x :: InBounds(g, x, y) && !IsAir(Update(g)[y][x]) && !IsFallable(Update(g)[y][x]) ==>
      Update(g)[y][x] == g[y][x]
  {
    GravityMatchesReference(g);
    forall y, x | InBounds(g, x, y) && !IsAir(g[y][x]) && !IsFallable(g[y][x])
      ensures Update(g)[y][x] == g[y][x]
    {
      assert !Falls(g, x, y);
      if y > 0 {
        assert !Falls(g, x, y - 1);
      }
    }
  }

  /** Each Stone/Box either stays and becomes Resting, or drops exactly one row
      and becomes Falling, into a cell that held Air or a tile that drops too;
      and every Stone/Box after the tick came from its own cell or the one above. */
  lemma SweepMovesAtMostOneRow(g: Grid)
    requires Supported(g)
    ensures forall y, x :: InBounds(g, x, y) && IsFallable(g[y][x]) ==>
      if Falls(g, x, y) then
        && InBounds(g, x, y + 1)
        && (IsAir(g[y + 1][x]) || Falls(g, x, y + 1))
        && Update(g)[y + 1][x] == WithState(g[y][x], Falling)
      else
        Update(g)[y][x] == WithState(g[y][x], Resting)
    ensures forall y, x :: InBounds(g, x, y) && IsFallable(Update(g)[y][x]) ==>
      || (IsFallable(g[y][x]) && !Falls(g, x, y) && Update(g)[y][x] == WithState(g[y][x], Resting))
      || (0 < y && Falls(g, x, y - 1) && Update(g)[y][x] == WithState(g[y - 1][x], Falling))
  {
    GravityMatchesReference(g);
    forall y, x | InBounds(g, x, y) && IsFallable(g[y][x]) && Falls(g, x, y)
      ensures Update(g)[y + 1][x] == WithState(g[y][x], Falling)
    {
      assert InBounds(g, x, y + 1);
      assert RefCell(g, x, y + 1) == WithState(g[y][x], Falling);
    }
  }

  lemma UpdateTileCount(g: Grid, x: int, y: int, k: Rock)
    requires InBounds(g, x, y) && SupportedAt(g, x, y)
    ensures Count(UpdateTile(g, x, y), k) == Count(g, k)
  {
    var t := g[y][x];
    if IsFallable(t) {
      if IsAir(g[y + 1][x]) {
        var g1 := Replace(g, x, y + 1, WithState(t, Falling));
        CountReplace(g, x, y + 1, WithState(t, Falling), k);
        CountReplace(g1, x, y, Air, k);
      } else {
        CountReplace(g, x, y, WithState(t, Resting), k);
      }
    }
  }

  lemma {:induction false} UpdateRowCount(g: Grid, y: int, x: nat, k: Rock)
    requires 0 <= y < |g|
    requires forall i :: x <= i < |g[y]| ==> SupportedAt(g, i, y)
    ensures Count(UpdateRow(g, y, x), k) == Count(g, k)
    decreases |g[y]| - x
  {
    if x < |g[y]| {
      var g' := UpdateTile(g, x, y);
      UpdateTileCount(g, x, y, k);
      assert forall i :: x + 1 <= i < |g'[y]| ==> g'[y][i] == g[y][i] && SupportedAt(g, i, y);
      UpdateRowCount(g', y, x + 1, k);
    }
  }

  lemma {:induction false} SweepCount(g: Grid, n: nat, k: Rock)
    requires n <= |g| && SupportedRows(g, n)
    ensures Count(Sweep(g, n), k) == Count(g, k)
    decreases n
  {
    if n > 0 {
      var g' := UpdateRow(g, n - 1, 0);
      UpdateRowCount(g, n - 1, 0, k);
      RowKeepsUpperSupport(g, n - 1);
      SweepCount(g', n - 1, k);
    }
  }

  lemma RowKeepsUpperSupport(g: Grid, y: int)
    requires 0 <= y < |g| && SupportedRows(g, y + 1)
    ensures SupportedRows(UpdateRow(g, y, 0), y)
  {
    var g' := UpdateRow(g, y, 0);
    forall j, x | 0 <= j < y && 0 <= x < |g'[j]| ensures SupportedAt(g', x, j) {
      assert InBounds(g, x, j) && g'[j][x] == g[j][x] && SupportedAt(g, x, j);
    }
  }

  /** A gravity tick keeps the number of Stones and the number of Boxes. */
  lemma SweepConservesRocks(g: Grid)
    requires Supported(g)
    ensures Count(Update(g), StoneRock) == Count(g, StoneRock)
    ensures Count(Update(g), BoxRock) == Count(g, BoxRock)
  {
    SweepCount(g, |g|, StoneRock);
    SweepCount(g, |g|, BoxRock);
  }

  /** A gravity tick keeps a walled level walled. */
  lemma SweepKeepsWalled(g: Grid)
    requires Walled(g)
    ensures Supported(g)
    ensures Walled(Update(g))
  {
    WalledIsSupported(g);
    SweepKeepsFixedTiles(g);
    var r := Update(g);
    forall y, x | 0 <= y < |r| && 0 <= x < |r[y]| && !Interior(r, x, y) ensures r[y][x] == Unbreakable {
      assert InBounds(g, x, y) && !Interior(g, x, y);
    }
  }
}
