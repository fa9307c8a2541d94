/** The player and the move handlers: `Player.move`/`moveToTile`/`pushHorizontal`,
    `Map.movePlayer`/`moveHorizontal`/`moveVertical`/`pushHorizontal`, the
    per-tile `moveHorizontal`/`moveVertical` handlers, and the four `Input`s.
 */
module Movement {
  import opened Tiles
  import opened TileMap

  datatype Player = Player(x: int, y: int)

  /** The grid together with the player that walks on it. */
  datatype World = World(grid: Grid, player: Player)

  /** The four direction commands; `Left`/`Right` move horizontally, `Up`/`Down` vertically. */
  datatype Input = Up | Down | Left | Right

  function Dx(i: Input): int {
    match i
    case Left => -1
    case Right => 1
    case _ => 0
  }

  function Dy(i: Input): int {
    match i
    case Up => -1
    case Down => 1
    case _ => 0
  }

  predicate IsHorizontal(i: Input) {
    i.Left? || i.Right?
  }

  predicate IsDelta(d: int) {
    d == 1 || d == -1
  }

  /** The level is walled and the player stands strictly inside it: every cell a
      handler reads or writes is then on the grid. */
  predicate Ready(w: World) {
    Walled(w.grid) && Interior(w.grid, w.player.x, w.player.y)
  }

  /** The player's coordinates name the one and only PlayerTile cell. */
  predicate PlayerOnly(g: Grid, x: int, y: int) {
    && InBounds(g, x, y)
    && g[y][x] == PlayerTile
    && forall j, i :: 0 <= j < |g| && 0 <= i < |g[j]| && g[j][i] == PlayerTile ==> i == x && j == y
  }

  /** The invariant a session keeps from a well-formed level onwards. */
  predicate Inv(w: World) {
    Ready(w) && PlayerOnly(w.grid, w.player.x, w.player.y)
  }

  /** `Map.movePlayer`. */
  function MovePlayer(g: Grid, x: int, y: int, nx: int, ny: int): (r: Grid)
    requires InBounds(g, x, y) && InBounds(g, nx, ny)
  {
    Replace(Replace(g, x, y, Air), nx, ny, PlayerTile)
  }

  /** `Player.moveToTile`: grid and coordinates change together. */
  function MoveToTile(w: World, nx: int, ny: int): (r: World)
    requires InBounds(w.grid, w.player.x, w.player.y) && InBounds(w.grid, nx, ny)
  {
    World(MovePlayer(w.grid, w.player.x, w.player.y, nx, ny), Player(nx, ny))
  }

  /** A neighbour of the player is on the grid, and strictly inside the border
      unless it is a wall. */
  lemma StepInterior(w: World, dx: int, dy: int)
    requires Ready(w) && -1 <= dx <= 1 && -1 <= dy <= 1
    ensures InBounds(w.grid, w.player.x + dx, w.player.y + dy)
    ensures w.grid[w.player.y + dy][w.player.x + dx] != Unbreakable ==>
      Interior(w.grid, w.player.x + dx, w.player.y + dy)
  {
  }

  /** Entering a cell strictly inside the border keeps the world ready.  Here
      and below, `s` names the world an operation returns, so that callers can
      pass the very term they need the fact about. */
  lemma MoveToTileReady(w: World, nx: int, ny: int, s: World)
    requires Ready(w) && Interior(w.grid, nx, ny)
    requires s == MoveToTile(w, nx, ny)
    ensures Ready(s)
  {
    var g1 := Replace(w.grid, w.player.x, w.player.y, Air);
    ReplaceKeepsWalled(w.grid, w.player.x, w.player.y, Air);
    ReplaceKeepsWalled(g1, nx, ny, PlayerTile);
  }

  /** `KeyConfiguration.unlock`. */
  function Unlock(w: World, keyId: int): World {
    World(Remove(w.grid, keyId), w.player)
  }

  /** `Map.pushHorizontal`: the pushed tile goes two cells along if that cell is
      Air and the cell under the pushed tile is not Air; the player follows it. */
  function PushHorizontal(w: World, tile: Tile, dx: int): World
    requires Ready(w) && IsDelta(dx) && Interior(w.grid, w.player.x + dx, w.player.y)
  {
    var g := w.grid;
    var x := w.player.x;
    var y := w.player.y;
    if IsAir(g[y][x + dx + dx]) && !IsAir(g[y + 1][x + dx]) then
      MoveToTile(World(Replace(g, x + dx + dx, y, tile), w.player), x + dx, y)
    else
      w
  }

  /** `Stone`/`Box.moveHorizontal` through `FallStrategy`: a Resting tile can be
      pushed, a Falling one ignores the move. */
  function PushIfResting(w: World, tile: Tile, dx: int): World
    requires Ready(w) && IsDelta(dx) && IsFallable(tile)
    requires w.grid[w.player.y][w.player.x + dx] == tile
  {
    StepInterior(w, dx, 0);
    if tile.state == Resting then PushHorizontal(w, tile, dx) else w
  }

  /** `Map.moveHorizontal` dispatching to the handler of the tile at (x + dx, y). */
  function MoveHorizontal(w: World, dx: int): World
    requires Ready(w) && IsDelta(dx)
  {
    var x := w.player.x;
    var y := w.player.y;
    var t := w.grid[y][x + dx];
    match t
    case Air => MoveToTile(w, x + dx, y)
    case Flux => MoveToTile(w, x + dx, y)
    case Unbreakable => w
    case PlayerTile => w
    case Lock(_) => w
    case Stone(_) => PushIfResting(w, t, dx)
    case Box(_) => PushIfResting(w, t, dx)
    case Key(id) => MoveToTile(Unlock(w, id), x + dx, y)
  }

  /** `Map.moveVertical`: only Air, Flux and keys react to a vertical move. */
  function MoveVertical(w: World, dy: int): World
    requires Ready(w) && IsDelta(dy)
  {
    var x := w.player.x;
    var y := w.player.y;
    match w.grid[y + dy][x]
    case Air => MoveToTile(w, x, y + dy)
    case Flux => MoveToTile(w, x, y + dy)
    case Key(id) => MoveToTile(Unlock(w, id), x, y + dy)
    case _ => w
  }

  /** Lock removal keeps the world ready. */
  lemma UnlockReady(w: World, keyId: int)
    requires Ready(w)
    ensures Ready(Unlock(w, keyId))
  {
    RemoveKeepsWalled(w.grid, keyId);
  }

  /** Pushing, whether or not the push succeeds, keeps the world ready. */
  lemma PushReady(w: World, tile: Tile, dx: int, s: World)
    requires Ready(w) && IsDelta(dx) && Interior(w.grid, w.player.x + dx, w.player.y)
    requires s == PushHorizontal(w, tile, dx)
    ensures Ready(s)
  {
    var g, x, y := w.grid, w.player.x, w.player.y;
    PushStep(w, tile, dx);
    if CanPush(w, dx) {
      ReplaceKeepsWalled(g, x + dx + dx, y, tile);
      MoveToTileReady(World(Replace(g, x + dx + dx, y, tile), w.player), x + dx, y, s);
    }
  }

  /** Stepping onto a key keeps the world ready. */
  lemma KeyStepReady(w: World, nx: int, ny: int, id: int, s: World)
    requires Ready(w) && Interior(w.grid, nx, ny)
    requires s == MoveToTile(Unlock(w, id), nx, ny)
    ensures Ready(s)
  {
    UnlockReady(w, id);
    MoveToTileReady(Unlock(w, id), nx, ny, s);
  }

  /** A command that changes nothing keeps the world ready. */
  lemma UnchangedReady(w: World, s: World)
    requires Ready(w) && s == w
    ensures Ready(s)
  {
  }

  /** Every horizontal move handler keeps the world ready. */
  lemma HorizontalReady(w: World, dx: int)
    requires Ready(w) && IsDelta(dx)
    ensures Ready(MoveHorizontal(w, dx))
  {
    var x, y := w.player.x, w.player.y;
    var t := w.grid[y][x + dx];
    StepInterior(w, dx, 0);
    var r := MoveHorizontal(w, dx);
    MoveHorizontalDispatch(w, dx);
    if t.Air? || t.Flux? {
      MoveToTileReady(w, x + dx, y, r);
    } else if t.Key? {
      KeyStepReady(w, x + dx, y, t.keyId, r);
    } else if IsFallable(t) && t.state == Resting {
      PushReady(w, t, dx, r);
    } else {
      UnchangedReady(w, r);
    }
  }

  /** Every vertical move handler keeps the world ready. */
  lemma VerticalReady(w: World, dy: int)
    requires Ready(w) && IsDelta(dy)
    ensures Ready(MoveVertical(w, dy))
  {
    var x, y := w.player.x, w.player.y;
    var t := w.grid[y + dy][x];
    StepInterior(w, 0, dy);
    var r := MoveVertical(w, dy);
    MoveVerticalDispatch(w, dy);
    if t.Air? || t.Flux? {
      MoveToTileReady(w, x, y + dy, r);
    } else if t.Key? {
      KeyStepReady(w, x, y + dy, t.keyId, r);
    } else {
      UnchangedReady(w, r);
    }
  }

  /** `Input.handle` for the four commands. */
  function Handle(w: World, i: Input): (r: World)
    requires Ready(w)
    ensures Ready(r)
  {
    match i
    case Right => HorizontalReady(w, 1); MoveHorizontal(w, 1)
    case Left => HorizontalReady(w, -1); MoveHorizontal(w, -1)
    case Up => VerticalReady(w, -1); MoveVertical(w, -1)
    case Down => VerticalReady(w, 1); MoveVertical(w, 1)
  }

  // ---------------------------------------------------------------------------
  // What one command does

  /** The cell a command aims at. */
  function Target(w: World, i: Input): Tile
    requires Ready(w)
  {
    w.grid[w.player.y + Dy(i)][w.player.x + Dx(i)]
  }

  /** Unfolds `Map.moveHorizontal` into one branch per kind of target tile; a
      proof step for the lemmas below, not a property of its own. */
  lemma MoveHorizontalDispatch(w: World, dx: int)
    requires Ready(w) && IsDelta(dx)
    ensures var t, x, y := w.grid[w.player.y][w.player.x + dx], w.player.x, w.player.y;
      MoveHorizontal(w, dx) ==
        if t.Air? || t.Flux? then MoveToTile(w, x + dx, y)
        else if t.Key? then MoveToTile(Unlock(w, t.keyId), x + dx, y)
        else if IsFallable(t) && t.state == Resting then PushHorizontal(w, t, dx)
        else w
  {
  }

  /** Unfolds `Map.moveVertical` into one branch per kind of target tile; a
      proof step for the lemmas below, not a property of its own. */
  lemma MoveVerticalDispatch(w: World, dy: int)
    requires Ready(w) && IsDelta(dy)
    ensures var t, x, y := w.grid[w.player.y + dy][w.player.x], w.player.x, w.player.y;
      MoveVertical(w, dy) ==
        if t.Air? || t.Flux? then MoveToTile(w, x, y + dy)
        else if t.Key? then MoveToTile(Unlock(w, t.keyId), x, y + dy)
        else w
  {
  }

  /** Unfolds `Handle` into one branch per kind of target tile, the same for
      both axes except that only horizontal moves push; a proof step for the
      lemmas below, not a property of its own. */
  lemma HandleDispatch(w: World, i: Input)
    requires Ready(w)
    ensures var t, x, y, dx, dy := Target(w, i), w.player.x, w.player.y, Dx(i), Dy(i);
      Handle(w, i) ==
        if t.Air? || t.Flux? then MoveToTile(w, x + dx, y + dy)
        else if t.Key? then MoveToTile(Unlock(w, t.keyId), x + dx, y + dy)
        else if IsHorizontal(i) && IsFallable(t) && t.state == Resting then PushHorizontal(w, t, dx)
        else w
  {
    if IsHorizontal(i) {
      HorizontalDispatch(w, i, Handle(w, i));
    } else {
      VerticalDispatch(w, i, Handle(w, i));
    }
  }

  /** `HandleDispatch` for `Left`/`Right`.  The caller passes the world `s` as
      the exact term it reasons about, so the solver need not re-derive it. */
  lemma HorizontalDispatch(w: World, i: Input, s: World)
    requires Ready(w) && IsHorizontal(i) && s == MoveHorizontal(w, Dx(i))
    ensures var t, x, y, dx, dy := Target(w, i), w.player.x, w.player.y, Dx(i), Dy(i);
      s ==
        if t.Air? || t.Flux? then MoveToTile(w, x + dx, y + dy)
        else if t.Key? then MoveToTile(Unlock(w, t.keyId), x + dx, y + dy)
        else if IsHorizontal(i) && IsFallable(t) && t.state == Resting then PushHorizontal(w, t, dx)
        else w
  {
    assert Dy(i) == 0;
    MoveHorizontalDispatch(w, Dx(i));
  }

  /** `HandleDispatch` for `Up`/`Down`, which never push.  The caller passes the
      world `s` as the exact term it reasons about. */
  lemma VerticalDispatch(w: World, i: Input, s: World)
    requires Ready(w) && !IsHorizontal(i) && s == MoveVertical(w, Dy(i))
    ensures var t, x, y, dx, dy := Target(w, i), w.player.x, w.player.y, Dx(i), Dy(i);
      s ==
        if t.Air? || t.Flux? then MoveToTile(w, x + dx, y + dy)
        else if t.Key? then MoveToTile(Unlock(w, t.keyId), x + dx, y + dy)
        else w
  {
    assert Dx(i) == 0;
    MoveVerticalDispatch(w, Dy(i));
  }

  /** Tiles that do nothing when the player moves into them along that axis:
      walls, the player's own tile and locks always; a Stone/Box when the move
      is vertical or when it is Falling. */
  predicate Ignores(t: Tile, horizontal: bool) {
    || t.Unbreakable? || t.PlayerTile? || t.Lock?
    || (IsFallable(t) && (!horizontal || t.state == Falling))
  }

  /** The push precondition: the cell two along is Air and the cell under the
      pushed tile is not. */
  predicate CanPush(w: World, dx: int)
    requires Ready(w) && IsDelta(dx) && Interior(w.grid, w.player.x + dx, w.player.y)
  {
    var g, x, y := w.grid, w.player.x, w.player.y;
    IsAir(g[y][x + dx + dx]) && !IsAir(g[y + 1][x + dx])
  }

  /** The command takes the player somewhere. */
  predicate Enters(w: World, i: Input)
    requires Ready(w)
  {
    var t := Target(w, i);
    || t.Air? || t.Flux? || t.Key?
    || (IsHorizontal(i) && IsFallable(t) && t.state == Resting && CanPush(w, Dx(i)))
  }

  /** `r` is `g` with the player moved from (x, y) to (nx, ny): the old cell is
      Air, the new one PlayerTile, and no other cell differs. */
  ghost predicate Relocated(g: Grid, r: Grid, x: int, y: int, nx: int, ny: int) {
    && SameShape(g, r) && InBounds(g, x, y) && InBounds(g, nx, ny)
    && r[y][x] == Air && r[ny][nx] == PlayerTile
    && forall j, k :: InBounds(g, k, j) && !(k == x && j == y) && !(k == nx && j == ny) ==> r[j][k] == g[j][k]
  }

  /** `r` is the grid `MoveToTile` leaves, `g` the one it starts from. */
  lemma MoveToTileRelocates(w: World, nx: int, ny: int, g: Grid, r: Grid)
    requires InBounds(w.grid, w.player.x, w.player.y) && InBounds(w.grid, nx, ny)
    requires nx != w.player.x || ny != w.player.y
    requires g == w.grid && r == MoveToTile(w, nx, ny).grid
    ensures Relocated(g, r, w.player.x, w.player.y, nx, ny)
  {
  }

  /** Walking onto Air or Flux: the player and its tile move to the target and
      the old cell becomes Air; nothing else changes. */
  lemma WalkOntoFree(w: World, i: Input)
    requires Ready(w) && (Target(w, i).Air? || Target(w, i).Flux?)
    ensures Handle(w, i).player == Player(w.player.x + Dx(i), w.player.y + Dy(i))
    ensures Relocated(w.grid, Handle(w, i).grid, w.player.x, w.player.y, w.player.x + Dx(i), w.player.y + Dy(i))
  {
    StepInterior(w, Dx(i), Dy(i));
    assert Handle(w, i) == MoveToTile(w, w.player.x + Dx(i), w.player.y + Dy(i)) by { HandleDispatch(w, i); }
    WalkStep(w, i, Handle(w, i));
  }

  /** The statement of `WalkOntoFree`, about the world `s` that `Handle`
      unfolds to.  It exists only to hand the solver that exact term. */
  lemma WalkStep(w: World, i: Input, s: World)
    requires Ready(w)
    requires s == MoveToTile(w, w.player.x + Dx(i), w.player.y + Dy(i))
    ensures s.player == Player(w.player.x + Dx(i), w.player.y + Dy(i))
    ensures Relocated(w.grid, s.grid, w.player.x, w.player.y, w.player.x + Dx(i), w.player.y + Dy(i))
  {
    assert Dx(i) != 0 || Dy(i) != 0;
    MoveToTileRelocates(w, w.player.x + Dx(i), w.player.y + Dy(i), w.grid, s.grid);
  }

  /** The push rule: a horizontal move into a Resting Stone/Box succeeds exactly
      when the cell beyond it is Air and the cell under it is not.  The tile then
      lands beyond, the player takes its cell, the old player cell becomes Air;
      otherwise grid and player are unchanged. */
  lemma PushRule(w: World, i: Input)
    requires Ready(w) && IsHorizontal(i)
    requires IsFallable(Target(w, i)) && Target(w, i).state == Resting
    ensures Interior(w.grid, w.player.x + Dx(i), w.player.y)
    ensures var x, y, dx := w.player.x, w.player.y, Dx(i);
      var g, r := w.grid, Handle(w, i);
      if IsAir(g[y][x + dx + dx]) && !IsAir(g[y + 1][x + dx]) then
        && r.player == Player(x + dx, y)
        && r.grid[y][x + dx + dx] == Target(w, i)
        && Relocated(Replace(g, x + dx + dx, y, Target(w, i)), r.grid, x, y, x + dx, y)
      else
        r == w
  {
    StepInterior(w, Dx(i), 0);
    assert Handle(w, i) == PushHorizontal(w, Target(w, i), Dx(i)) by { HandleDispatch(w, i); }
    PushRuleStep(w, i, Handle(w, i));
  }

  /** The statement of `PushRule`, about the world `s` that `Handle` unfolds
      to.  It exists only to hand the solver that exact term. */
  lemma PushRuleStep(w: World, i: Input, s: World)
    requires Ready(w) && IsHorizontal(i)
    requires IsFallable(Target(w, i)) && Target(w, i).state == Resting
    requires Interior(w.grid, w.player.x + Dx(i), w.player.y)
    requires s == PushHorizontal(w, Target(w, i), Dx(i))
    ensures var x, y, dx := w.player.x, w.player.y, Dx(i);
      var g, r := w.grid, s;
      if IsAir(g[y][x + dx + dx]) && !IsAir(g[y + 1][x + dx]) then
        && r.player == Player(x + dx, y)
        && r.grid[y][x + dx + dx] == Target(w, i)
        && Relocated(Replace(g, x + dx + dx, y, Target(w, i)), r.grid, x, y, x + dx, y)
      else
        r == w
  {
    var x, y, dx := w.player.x, w.player.y, Dx(i);
    var t := Target(w, i);
    PushStep(w, t, dx);
    if CanPush(w, dx) {
      MoveToTileRelocates(World(Replace(w.grid, x + dx + dx, y, t), w.player), x + dx, y, Replace(w.grid, x + dx + dx, y, t), s.grid);
    }
  }

  /** What a push does, before the player's move is unfolded. */
  lemma PushStep(w: World, tile: Tile, dx: int)
    requires Ready(w) && IsDelta(dx) && Interior(w.grid, w.player.x + dx, w.player.y)
    ensures var g, x, y := w.grid, w.player.x, w.player.y;
      PushHorizontal(w, tile, dx) ==
        if CanPush(w, dx) then MoveToTile(World(Replace(g, x + dx + dx, y, tile), w.player), x + dx, y)
        else w
  {
  }

  /** Blocked moves are no-ops: walls, the player's tile and locks ignore every
      move; a Stone/Box ignores vertical moves and, while Falling, horizontal ones. */
  lemma BlockedMoves(w: World, i: Input)
    requires Ready(w) && Ignores(Target(w, i), IsHorizontal(i))
    ensures Handle(w, i) == w
  {
  }

  /** A command moves the player exactly when it enters Air, Flux or a key, or
      pushes a Resting Stone/Box; any command that does not move the player
      leaves the whole world unchanged. */
  lemma MovesIffEnters(w: World, i: Input)
    requires Ready(w)
    ensures Handle(w, i).player != w.player <==> Enters(w, i)
    ensures !Enters(w, i) ==> Handle(w, i) == w
  {
    var t := Target(w, i);
    if IsFallable(t) && IsHorizontal(i) && t.state == Resting {
      PushRule(w, i);
    } else {
      HandleDispatch(w, i);
    }
  }

  /** Keys unlock grid-wide: stepping onto Key(id) turns every lock with that id
      into Air, leaves every other cell but the two player cells alone, and moves
      the player onto the key; afterwards removing `id` again changes nothing. */
  lemma KeyUnlocks(w: World, i: Input)
    requires Ready(w) && Target(w, i).Key?
    ensures var x, y, nx, ny := w.player.x, w.player.y, w.player.x + Dx(i), w.player.y + Dy(i);
      var id, r := Target(w, i).keyId, Handle(w, i);
      && r.player == Player(nx, ny)
      && Relocated(Remove(w.grid, id), r.grid, x, y, nx, ny)
      && (forall j, k :: InBounds(r.grid, k, j) ==> !Fits(r.grid[j][k], id))
      && Remove(r.grid, id) == r.grid
  {
    StepInterior(w, Dx(i), Dy(i));
    assert Handle(w, i) == MoveToTile(Unlock(w, Target(w, i).keyId), w.player.x + Dx(i), w.player.y + Dy(i)) by {
      HandleDispatch(w, i);
    }
    KeyStep(w, i, Handle(w, i));
  }

  /** The statement of `KeyUnlocks`, about the world `s` that `Handle` unfolds
      to.  It exists only to hand the solver that exact term. */
  lemma KeyStep(w: World, i: Input, s: World)
    requires Ready(w) && Target(w, i).Key?
    requires s == MoveToTile(Unlock(w, Target(w, i).keyId), w.player.x + Dx(i), w.player.y + Dy(i))
    ensures var x, y, nx, ny := w.player.x, w.player.y, w.player.x + Dx(i), w.player.y + Dy(i);
      var id, r := Target(w, i).keyId, s;
      && r.player == Player(nx, ny)
      && Relocated(Remove(w.grid, id), r.grid, x, y, nx, ny)
      && (forall j, k :: InBounds(r.grid, k, j) ==> !Fits(r.grid[j][k], id))
      && Remove(r.grid, id) == r.grid
  {
    var nx, ny := w.player.x + Dx(i), w.player.y + Dy(i);
    assert Dx(i) != 0 || Dy(i) != 0;
    StepInterior(w, Dx(i), Dy(i));
    var id := Target(w, i).keyId;
    MoveToTileRelocates(Unlock(w, id), nx, ny, Remove(w.grid, id), s.grid);
    RelocatedCleared(w.grid, s.grid, w.player.x, w.player.y, nx, ny, id);
  }

  /** Moving the player around a grid with no lock of `id` leaves none. */
  lemma RelocatedCleared(g: Grid, r: Grid, x: int, y: int, nx: int, ny: int, id: int)
    requires Relocated(Remove(g, id), r, x, y, nx, ny)
    ensures forall j, k :: InBounds(r, k, j) ==> !Fits(r[j][k], id)
    ensures Remove(r, id) == r
  {
    forall j, k | InBounds(r, k, j) ensures !Fits(r[j][k], id) {
      assert InBounds(g, k, j);
    }
    RemoveNoop(r, id);
  }

  // ---------------------------------------------------------------------------
  // Invariants every command keeps

  /** Same walls before and after. */
  ghost predicate SameWalls(g: Grid, r: Grid) {
    && SameShape(g, r)
    && forall j, k :: InBounds(g, k, j) ==> (r[j][k] == Unbreakable <==> g[j][k] == Unbreakable)
  }

  /** What every command keeps: the invariant, the walls, and the number of rocks of kind `k`. */
  ghost predicate Keeps(w: World, r: World, k: Rock) {
    Inv(r) && SameWalls(w.grid, r.grid) && Count(r.grid, k) == Count(w.grid, k)
  }

  /** Moving onto a cell that is neither a wall nor the player keeps the
      invariant and the walls, and trades the target's tile for Air in the counts. */
  lemma MoveToTileKeepsInv(w: World, nx: int, ny: int, k: Rock)
    requires Inv(w) && Interior(w.grid, nx, ny)
    requires w.grid[ny][nx] != PlayerTile && w.grid[ny][nx] != Unbreakable
    ensures Inv(MoveToTile(w, nx, ny))
    ensures SameWalls(w.grid, MoveToTile(w, nx, ny).grid)
    ensures Count(MoveToTile(w, nx, ny).grid, k) + Ind(IsRock(w.grid[ny][nx], k)) == Count(w.grid, k) + Ind(IsRock(Air, k))
  {
    var g, x, y := w.grid, w.player.x, w.player.y;
    var g1 := Replace(g, x, y, Air);
    MoveToTileReady(w, nx, ny, MoveToTile(w, nx, ny));
    MoveToTileRelocates(w, nx, ny, g, MoveToTile(w, nx, ny).grid);
    CountReplace(g, x, y, Air, k);
    CountReplace(g1, nx, ny, PlayerTile, k);
  }

  /** Stepping onto Air or Flux. */
  lemma FreeStepKeepsInv(w: World, nx: int, ny: int, k: Rock, s: World)
    requires Inv(w) && Interior(w.grid, nx, ny)
    requires w.grid[ny][nx].Air? || w.grid[ny][nx].Flux?
    requires s == MoveToTile(w, nx, ny)
    ensures Keeps(w, s, k)
  {
    assert !IsRock(w.grid[ny][nx], k) && !IsRock(Air, k);
    MoveToTileKeepsInv(w, nx, ny, k);
  }

  /** Lock removal keeps the invariant, the walls and the rock counts. */
  lemma UnlockKeepsInv(w: World, id: int, k: Rock)
    requires Inv(w)
    ensures Inv(Unlock(w, id))
    ensures SameWalls(w.grid, Unlock(w, id).grid)
    ensures Count(Unlock(w, id).grid, k) == Count(w.grid, k)
  {
    UnlockReady(w, id);
    CountRemove(w.grid, id, k);
  }

  /** Stepping onto a key. */
  lemma KeyStepKeepsInv(w: World, nx: int, ny: int, k: Rock, s: World)
    requires Inv(w) && Interior(w.grid, nx, ny) && w.grid[ny][nx].Key?
    requires s == MoveToTile(Unlock(w, w.grid[ny][nx].keyId), nx, ny)
    ensures Keeps(w, s, k)
  {
    var t := w.grid[ny][nx];
    var w1 := Unlock(w, t.keyId);
    UnlockKeepsInv(w, t.keyId, k);
    assert w1.grid[ny][nx] == t;
    assert !IsRock(t, k) && !IsRock(Air, k);
    MoveToTileKeepsInv(w1, nx, ny, k);
  }

  /** Pushing, whether or not the push succeeds. */
  lemma PushKeepsInv(w: World, dx: int, k: Rock, s: World)
    requires Inv(w) && IsDelta(dx)
    requires Interior(w.grid, w.player.x + dx, w.player.y)
    requires IsFallable(w.grid[w.player.y][w.player.x + dx])
    requires s == PushHorizontal(w, w.grid[w.player.y][w.player.x + dx], dx)
    ensures Keeps(w, s, k)
  {
    PushStep(w, w.grid[w.player.y][w.player.x + dx], dx);
    if CanPush(w, dx) {
      PushSuccessKeepsInv(w, dx, k, s);
    } else {
      KeepsUnchanged(w, k, s);
    }
  }

  /** A command that changes nothing keeps everything. */
  lemma KeepsUnchanged(w: World, k: Rock, s: World)
    requires Inv(w) && s == w
    ensures Keeps(w, s, k)
  {
  }

  /** The world `s` a successful push reaches. */
  lemma PushSuccessKeepsInv(w: World, dx: int, k: Rock, s: World)
    requires Inv(w) && IsDelta(dx)
    requires Interior(w.grid, w.player.x + dx, w.player.y)
    requires IsFallable(w.grid[w.player.y][w.player.x + dx]) && CanPush(w, dx)
    requires var g, x, y := w.grid, w.player.x, w.player.y;
      s == MoveToTile(World(Replace(g, x + dx + dx, y, g[y][x + dx]), w.player), x + dx, y)
    ensures Keeps(w, s, k)
  {
    var g, x, y := w.grid, w.player.x, w.player.y;
    var w1 := World(Replace(g, x + dx + dx, y, g[y][x + dx]), w.player);
    PushedWorld(w, dx, k);
    MoveToTileKeepsInv(w1, x + dx, y, k);
  }

  /** The grid a successful push has written its tile into, before the player moves. */
  lemma PushedWorld(w: World, dx: int, k: Rock)
    requires Inv(w) && IsDelta(dx)
    requires Interior(w.grid, w.player.x + dx, w.player.y)
    requires IsFallable(w.grid[w.player.y][w.player.x + dx]) && CanPush(w, dx)
    ensures var g, x, y := w.grid, w.player.x, w.player.y;
      var w1 := World(Replace(g, x + dx + dx, y, g[y][x + dx]), w.player);
      && Inv(w1) && SameWalls(g, w1.grid)
      && w1.grid[y][x + dx] == g[y][x + dx]
      && Count(w1.grid, k) == Count(g, k) + Ind(IsRock(g[y][x + dx], k))
  {
    var g, x, y := w.grid, w.player.x, w.player.y;
    var t := g[y][x + dx];
    CountReplace(g, x + dx + dx, y, t, k);
    ReplaceKeepsWalled(g, x + dx + dx, y, t);
    assert !IsRock(Air, k);
  }

  /** Every horizontal move handler keeps the invariant, walls and counts. */
  lemma HorizontalKeepsInv(w: World, dx: int, k: Rock)
    requires Inv(w) && IsDelta(dx)
    ensures Keeps(w, MoveHorizontal(w, dx), k)
  {
    var x, y := w.player.x, w.player.y;
    var t := w.grid[y][x + dx];
    var s := MoveHorizontal(w, dx);
    StepInterior(w, dx, 0);
    MoveHorizontalDispatch(w, dx);
    if t.Air? || t.Flux? {
      FreeStepKeepsInv(w, x + dx, y, k, s);
    } else if t.Key? {
      KeyStepKeepsInv(w, x + dx, y, k, s);
    } else if IsFallable(t) && t.state == Resting {
      PushKeepsInv(w, dx, k, s);
    } else {
      KeepsUnchanged(w, k, s);
    }
  }

  /** Every vertical move handler keeps the invariant, walls and counts. */
  lemma VerticalKeepsInv(w: World, dy: int, k: Rock)
    requires Inv(w) && IsDelta(dy)
    ensures Keeps(w, MoveVertical(w, dy), k)
  {
    var x, y := w.player.x, w.player.y;
    var t := w.grid[y + dy][x];
    var s := MoveVertical(w, dy);
    StepInterior(w, 0, dy);
    MoveVerticalDispatch(w, dy);
    if t.Air? || t.Flux? {
      FreeStepKeepsInv(w, x, y + dy, k, s);
    } else if t.Key? {
      KeyStepKeepsInv(w, x, y + dy, k, s);
    } else {
      KeepsUnchanged(w, k, s);
    }
  }

  /** One command keeps the invariant, the walls and the count of rock kind `k`. */
  lemma HandleKeepsInvFor(w: World, i: Input, k: Rock)
    requires Inv(w)
    ensures Keeps(w, Handle(w, i), k)
  {
    if IsHorizontal(i) {
      HorizontalKeepsInv(w, Dx(i), k);
    } else {
      VerticalKeepsInv(w, Dy(i), k);
    }
  }

  /** Every command keeps the player on the one PlayerTile cell, keeps the level
      walled, never moves a wall, and keeps the number of Stones and of Boxes. */
  lemma HandleKeepsInv(w: World, i: Input)
    requires Inv(w)
    ensures Inv(Handle(w, i))
    ensures SameWalls(w.grid, Handle(w, i).grid)
    ensures Count(Handle(w, i).grid, StoneRock) == Count(w.grid, StoneRock)
    ensures Count(Handle(w, i).grid, BoxRock) == Count(w.grid, BoxRock)
  {
    HandleKeepsInvFor(w, i, StoneRock);
    HandleKeepsInvFor(w, i, BoxRock);
  }
}
