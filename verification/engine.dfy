/** One tick of the game: `handleInputs` drains the command queue, then
    `Map.update` runs one gravity sweep (the top-level `update`).
 */
module Engine {
  import opened Tiles
  import opened TileMap
  import opened Gravity
  import opened Movement

  /** `handleInputs`: the queue is drained with `pop`, so the command that
      arrived last is handled first. */
  function HandleInputs(w: World, inputs: seq<Input>): (r: World)
    requires Ready(w)
    ensures Ready(r)
    decreases |inputs|
  {
    if inputs == [] then w
    else HandleInputs(Handle(w, inputs[|inputs| - 1]), inputs[..|inputs| - 1])
  }

  /** The commands handled first to last. */
  function ApplyInOrder(w: World, cmds: seq<Input>): (r: World)
    requires Ready(w)
    ensures Ready(r)
    decreases |cmds|
  {
    if cmds == [] then w else ApplyInOrder(Handle(w, cmds[0]), cmds[1..])
  }

  function Reverse<T>(s: seq<T>): (r: seq<T>)
    ensures |r| == |s|
    ensures forall i :: 0 <= i < |s| ==> r[i] == s[|s| - 1 - i]
  {
    if s == [] then [] else [s[|s| - 1]] + Reverse(s[..|s| - 1])
  }

  /** Draining the queue handles the commands in reverse order of arrival. */
  lemma {:induction false} HandleInputsIsLifo(w: World, inputs: seq<Input>)
    requires Ready(w)
    ensures HandleInputs(w, inputs) == ApplyInOrder(w, Reverse(inputs))
    decreases |inputs|
  {
    if inputs != [] {
      var last, rest := inputs[|inputs| - 1], inputs[..|inputs| - 1];
      HandleInputsIsLifo(Handle(w, last), rest);
      assert ([last] + Reverse(rest))[1..] == Reverse(rest);
    }
  }

  /** Draining the queue keeps the invariant, the walls and the rock counts. */
  lemma {:induction false} HandleInputsKeeps(w: World, inputs: seq<Input>, k: Rock)
    requires Inv(w)
    ensures Keeps(w, HandleInputs(w, inputs), k)
    decreases |inputs|
  {
    if inputs != [] {
      var w1 := Handle(w, inputs[|inputs| - 1]);
      HandleKeepsInvFor(w, inputs[|inputs| - 1], k);
      HandleInputsKeeps(w1, inputs[..|inputs| - 1], k);
    }
  }

  /** A gravity sweep keeps the player on the one PlayerTile cell, the walls
      where they are, and the rock counts. */
  lemma SweepKeeps(w: World, k: Rock)
    requires Inv(w)
    ensures Supported(w.grid)
    ensures Keeps(w, World(Update(w.grid), w.player), k)
  {
    SweepKeepsWalled(w.grid);
    SweepKeepsFixedTiles(w.grid);
    SweepConservesRocks(w.grid);
    var r := Update(w.grid);
    assert InBounds(w.grid, w.player.x, w.player.y);
    forall j, i | 0 <= j < |r| && 0 <= i < |r[j]| && r[j][i] == PlayerTile
      ensures i == w.player.x && j == w.player.y
    {
      assert InBounds(w.grid, i, j);
    }
    // Split on the rock kind, so that each count is related to its own kind.
    match k
    case StoneRock =>
    case BoxRock =>
  }

  /** The game between ticks: the world and the commands queued since the last tick. */
  datatype Game = Game(world: World, inputs: seq<Input>)

  /** The top-level `update`: drain the queue, then one gravity sweep. */
  function Tick(s: Game): (r: Game)
    requires Ready(s.world)
    ensures r.inputs == [] && Ready(r.world)
  {
    var w := HandleInputs(s.world, s.inputs);
    SweepKeepsWalled(w.grid);
    Game(World(Update(w.grid), w.player), [])
  }

  /** A tick applies every queued command, last arrival first, and only then
      runs exactly one gravity sweep; the queue is left empty. */
  lemma TickOrder(s: Game)
    requires Ready(s.world)
    ensures var w := ApplyInOrder(s.world, Reverse(s.inputs));
      && Supported(w.grid)
      && Tick(s) == Game(World(Update(w.grid), w.player), [])
  {
    HandleInputsIsLifo(s.world, s.inputs);
    SweepKeepsWalled(HandleInputs(s.world, s.inputs).grid);
  }

  /** A tick keeps the invariant, the walls and the rock counts. */
  lemma TickKeeps(s: Game, k: Rock)
    requires Inv(s.world)
    ensures Keeps(s.world, Tick(s).world, k)
  {
    var w := HandleInputs(s.world, s.inputs);
    HandleInputsKeeps(s.world, s.inputs, k);
    SweepKeeps(w, k);
  }
}
