/** The `Map` grid: cell replacement, grid-wide lock removal, border shape and
    tile counts.  Rows are indexed top (0) to bottom; "down" is `y + 1`.
 */
module TileMap {
  import opened Tiles

  type Grid = seq<seq<Tile>>

  predicate InBounds(g: Grid, x: int, y: int) {
    0 <= y < |g| && 0 <= x < |g[y]|
  }

  /** Same number of rows and the same length for each row. */
  predicate SameShape(g: Grid, h: Grid) {
    |g| == |h| && forall y :: 0 <= y < |g| ==> |g[y]| == |h[y]|
  }

  /** `this.map[y][x] = t`. */
  function Replace(g: Grid, x: int, y: int, t: Tile): (r: Grid)
    requires InBounds(g, x, y)
  {
    g[y := g[y][x := t]]
  }

  predicate Rect(g: Grid) {
    |g| > 0 && forall y :: 0 <= y < |g| ==> |g[y]| == |g[0]|
  }

  /** Strictly inside the border. */
  predicate Interior(g: Grid, x: int, y: int) {
    1 <= y < |g| - 1 && 1 <= x < |g[y]| - 1
  }

  /** A rectangular level whose every border cell is `Unbreakable`.  This is what
      keeps every index the move handlers and the gravity sweep use in range. */
  predicate Walled(g: Grid) {
    && Rect(g)
    && forall y, x :: 0 <= y < |g| && 0 <= x < |g[y]| && !Interior(g, x, y) ==> g[y][x] == Unbreakable
  }

  /** Replacing a cell strictly inside the border keeps the level walled. */
  lemma ReplaceKeepsWalled(g: Grid, x: int, y: int, t: Tile)
    requires Walled(g) && Interior(g, x, y)
    ensures Walled(Replace(g, x, y, t))
  {
    var r := Replace(g, x, y, t);
    forall j, i | 0 <= j < |r| && 0 <= i < |r[j]| && !Interior(r, i, j) ensures r[j][i] == Unbreakable {
      assert InBounds(g, i, j) && !Interior(g, i, j);
    }
  }

  // ---------------------------------------------------------------------------
  // Lock removal (`KeyConfiguration.unlock`, `RemoveIdLock`, `Map.remove`)

  /** What `remove` does to one cell. */
  function Unlocked(t: Tile, keyId: int): Tile {
    if Fits(t, keyId) then Air else t
  }

  function RemoveInRow(row: seq<Tile>, keyId: int): (r: seq<Tile>)
    ensures |r| == |row|
    ensures forall x :: 0 <= x < |row| ==> r[x] == Unlocked(row[x], keyId)
  {
    seq(|row|, x requires 0 <= x < |row| => Unlocked(row[x], keyId))
  }

  /** Every lock with id `keyId`, anywhere on the grid, becomes Air; every other
      cell, other locks and all keys included, is left as it was. */
  function Remove(g: Grid, keyId: int): (r: Grid)
    ensures SameShape(g, r)
    ensures forall y, x :: InBounds(g, x, y) ==> r[y][x] == Unlocked(g[y][x], keyId)
  {
    seq(|g|, y requires 0 <= y < |g| => RemoveInRow(g[y], keyId))
  }

  /** Two grids of the same shape that agree on every cell are equal. */
  lemma {:induction false} CellwiseEqual(g: Grid, h: Grid)
    requires SameShape(g, h)
    requires forall y, x :: InBounds(g, x, y) ==> g[y][x] == h[y][x]
    ensures g == h
  {
    forall y | 0 <= y < |g|
      ensures g[y] == h[y]
    {
      assert forall x :: 0 <= x < |g[y]| ==> g[y][x] == h[y][x] by {
        forall x | 0 <= x < |g[y]| ensures g[y][x] == h[y][x] {
          assert InBounds(g, x, y);
        }
      }
    }
  }

  /** After a removal no lock of that id is left, removal turns exactly the
      matching locks into Air, and a second removal with the same id is a no-op. */
  lemma {:induction false} RemoveIdempotent(g: Grid, keyId: int)
    ensures forall y, x :: InBounds(g, x, y) ==> !Fits(Remove(g, keyId)[y][x], keyId)
    ensures forall y, x :: InBounds(g, x, y) ==>
      (Remove(g, keyId)[y][x] != g[y][x] <==> Fits(g[y][x], keyId))
    ensures Remove(Remove(g, keyId), keyId) == Remove(g, keyId)
  {
    var r := Remove(g, keyId);
    var rr := Remove(r, keyId);
    forall y, x | InBounds(r, x, y) ensures rr[y][x] == r[y][x] {
      assert InBounds(g, x, y);
    }
    CellwiseEqual(rr, r);
  }

  /** Removal is a no-op on a grid without a fitting lock. */
  lemma RemoveNoop(g: Grid, keyId: int)
    requires forall y, x :: InBounds(g, x, y) ==> !Fits(g[y][x], keyId)
    ensures Remove(g, keyId) == g
  {
    CellwiseEqual(Remove(g, keyId), g);
  }

  /** Removal never touches an `Unbreakable` cell and never creates one. */
  lemma RemoveKeepsWalled(g: Grid, keyId: int)
    requires Walled(g)
    ensures Walled(Remove(g, keyId))
  {
    var r := Remove(g, keyId);
    forall y, x | InBounds(r, x, y) && !Interior(r, x, y) ensures r[y][x] == Unbreakable {
      assert InBounds(g, x, y) && !Interior(g, x, y);
    }
  }

  // ---------------------------------------------------------------------------
  // Counting tiles of a kind

  function Ind(b: bool): nat {
    if b then 1 else 0
  }

  /** Number of rocks of kind `k` in `row[i..]`. */
  function CountRowFrom(row: seq<Tile>, i: nat, k: Rock): nat
    decreases |row| - i
  {
    if i >= |row| then 0 else Ind(IsRock(row[i], k)) + CountRowFrom(row, i + 1, k)
  }

  function CountRow(row: seq<Tile>, k: Rock): nat {
    CountRowFrom(row, 0, k)
  }

  /** Number of rocks of kind `k` in rows `i..` of `g`. */
  function CountFrom(g: Grid, i: nat, k: Rock): nat
    decreases |g| - i
  {
    if i >= |g| then 0 else CountRow(g[i], k) + CountFrom(g, i + 1, k)
  }

  /** Number of rocks of kind `k` on the grid. */
  function Count(g: Grid, k: Rock): nat {
    CountFrom(g, 0, k)
  }

  lemma {:induction false} CountRowFromReplace(row: seq<Tile>, i: nat, x: int, t: Tile, k: Rock)
    requires 0 <= x < |row|
    ensures i <= x ==>
      CountRowFrom(row[x := t], i, k) + Ind(IsRock(row[x], k)) == CountRowFrom(row, i, k) + Ind(IsRock(t, k))
    ensures x < i ==> CountRowFrom(row[x := t], i, k) == CountRowFrom(row, i, k)
    decreases |row| - i
  {
    if i < |row| {
      CountRowFromReplace(row, i + 1, x, t, k);
    }
  }

  lemma {:induction false} CountFromReplace(g: Grid, i: nat, x: int, y: int, t: Tile, k: Rock)
    requires InBounds(g, x, y)
    ensures i <= y ==>
      CountFrom(Replace(g, x, y, t), i, k) + Ind(IsRock(g[y][x], k)) == CountFrom(g, i, k) + Ind(IsRock(t, k))
    ensures y < i ==> CountFrom(Replace(g, x, y, t), i, k) == CountFrom(g, i, k)
    decreases |g| - i
  {
    if i < |g| {
      CountFromReplace(g, i + 1, x, y, t, k);
      if i == y {
        CountRowFromReplace(g[y], 0, x, t, k);
      }
    }
  }

  /** Replacing one cell changes the count by exactly what left and what arrived. */
  lemma CountReplace(g: Grid, x: int, y: int, t: Tile, k: Rock)
    requires InBounds(g, x, y)
    ensures Count(Replace(g, x, y, t), k) + Ind(IsRock(g[y][x], k)) == Count(g, k) + Ind(IsRock(t, k))
  {
    CountFromReplace(g, 0, x, y, t, k);
  }

  lemma {:induction false} CountRowFromRemove(row: seq<Tile>, i: nat, keyId: int, k: Rock)
    ensures CountRowFrom(RemoveInRow(row, keyId), i, k) == CountRowFrom(row, i, k)
    decreases |row| - i
  {
    if i < |row| {
      CountRowFromRemove(row, i + 1, keyId, k);
    }
  }

  lemma {:induction false} CountFromRemove(g: Grid, i: nat, keyId: int, k: Rock)
    ensures CountFrom(Remove(g, keyId), i, k) == CountFrom(g, i, k)
    decreases |g| - i
  {
    if i < |g| {
      CountRowFromRemove(g[i], 0, keyId, k);
      CountFromRemove(g, i + 1, keyId, k);
    }
  }

  /** Lock removal keeps the number of rocks of each kind. */
  lemma CountRemove(g: Grid, keyId: int, k: Rock)
    ensures Count(Remove(g, keyId), k) == Count(g, k)
  {
    CountFromRemove(g, 0, keyId, k);
  }
}
