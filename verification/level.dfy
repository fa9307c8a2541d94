/** Level construction: `Map.FromTiles` maps every `RawTile` code of a level
    through `Map.transformTile`.
 */
module Level {
  import opened Tiles
  import opened TileMap
  import opened Movement

  datatype Option<T> = None | Some(value: T)

  /** The `RawTile` enum, in declaration order. */
  const RawAir: int := 0
  const RawFlux: int := 1
  const RawUnbreakable: int := 2
  const RawPlayer: int := 3
  const RawStone: int := 4
  const RawFallingStone: int := 5
  const RawBox: int := 6
  const RawFallingBox: int := 7
  const RawKey1: int := 8
  const RawLock1: int := 9
  const RawKey2: int := 10
  const RawLock2: int := 11

  /** `Map.transformTile`.  `STONE` starts Falling and `FALLING_STONE` Resting,
      while `BOX` starts Resting and `FALLING_BOX` Falling.  Any other code is
      the exhaustiveness failure, here `None`. */
  function TransformTile(code: int): (r: Option<Tile>)
    ensures r.Some? <==> RawAir <= code <= RawLock2
    ensures code == RawStone ==> r == Some(Stone(Falling))
    ensures code == RawFallingStone ==> r == Some(Stone(Resting))
    ensures code == RawBox ==> r == Some(Box(Resting))
    ensures code == RawFallingBox ==> r == Some(Box(Falling))
    ensures code == RawKey1 ==> r == Some(Key(YellowKey))
    ensures code == RawLock1 ==> r == Some(Lock(YellowKey))
    ensures code == RawKey2 ==> r == Some(Key(OtherKey))
    ensures code == RawLock2 ==> r == Some(Lock(OtherKey))
  {
    if code == RawAir then Some(Air)
    else if code == RawPlayer then Some(PlayerTile)
    else if code == RawUnbreakable then Some(Unbreakable)
    else if code == RawStone then Some(Stone(Falling))
    else if code == RawFallingStone then Some(Stone(Resting))
    else if code == RawBox then Some(Box(Resting))
    else if code == RawFallingBox then Some(Box(Falling))
    else if code == RawFlux then Some(Flux)
    else if code == RawKey1 then Some(Key(YellowKey))
    else if code == RawKey2 then Some(Key(OtherKey))
    else if code == RawLock1 then Some(Lock(YellowKey))
    else if code == RawLock2 then Some(Lock(OtherKey))
    else None
  }

  /** Tiles a level can describe: keys and locks only of the two configurations. */
  predicate HasCode(t: Tile) {
    (t.Key? || t.Lock?) ==> t.keyId == YellowKey || t.keyId == OtherKey
  }

  /** The code a level uses for a tile: the inverse of `TransformTile`. */
  function RawCode(t: Tile): (c: int)
    requires HasCode(t)
    ensures TransformTile(c) == Some(t)
  {
    match t
    case Air => RawAir
    case Flux => RawFlux
    case Unbreakable => RawUnbreakable
    case PlayerTile => RawPlayer
    case Stone(Falling) => RawStone
    case Stone(Resting) => RawFallingStone
    case Box(Resting) => RawBox
    case Box(Falling) => RawFallingBox
    case Key(id) => if id == YellowKey then RawKey1 else RawKey2
    case Lock(id) => if id == YellowKey then RawLock1 else RawLock2
  }

  /** Distinct codes give distinct tiles: decoding a code and encoding the tile
      gives the code back. */
  lemma CodeRoundTrip(code: int)
    requires TransformTile(code).Some?
    ensures HasCode(TransformTile(code).value)
    ensures RawCode(TransformTile(code).value) == code
  {
  }

  function TransformRow(codes: seq<int>): (r: Option<seq<Tile>>)
    ensures r.Some? <==> forall x :: 0 <= x < |codes| ==> TransformTile(codes[x]).Some?
    ensures r.Some? ==> |r.value| == |codes|
    ensures r.Some? ==> forall x :: 0 <= x < |codes| ==> TransformTile(codes[x]) == Some(r.value[x])
  {
    if codes == [] then Some([])
    else
      match TransformTile(codes[0])
      case None => None
      case Some(t) =>
        match TransformRow(codes[1..])
        case None => None
        case Some(rest) => Some([t] + rest)
  }

  /** `Map.FromTiles`: a level builds iff every code is a `RawTile`; the grid has
      the level's shape and each cell is the tile of its code. */
  function FromTiles(level: seq<seq<int>>): (r: Option<Grid>)
    ensures r.Some? <==> forall y, x :: 0 <= y < |level| && 0 <= x < |level[y]| ==> TransformTile(level[y][x]).Some?
    ensures r.Some? ==> |r.value| == |level|
    ensures r.Some? ==> forall y :: 0 <= y < |level| ==> |r.value[y]| == |level[y]|
    ensures r.Some? ==> forall y, x :: 0 <= y < |level| && 0 <= x < |level[y]| ==>
      TransformTile(level[y][x]) == Some(r.value[y][x])
  {
    if level == [] then Some([])
    else
      match TransformRow(level[0])
      case None => None
      case Some(row) =>
        match FromTiles(level[1..])
        case None => None
        case Some(rest) =>
          assert forall y :: 1 <= y < |level| ==> level[y] == level[1..][y - 1];
          Some([row] + rest)
  }


  /** The level the game ships with. */
  const SampleLevel: seq<seq<int>> := [
    [2, 2, 2, 2, 2, 2, 2, 2],
    [2, 3, 0, 1, 1, 2, 0, 2],
    [2, 4, 2, 6, 1, 2, 0, 2],
    [2, 8, 4, 1, 1, 2, 0, 2],
    [2, 4, 1, 1, 1, 9, 0, 2],
    [2, 2, 2, 2, 2, 2, 2, 2]
  ]

  /** The grid the shipped level describes. */
  const SampleGrid: Grid := [
    [Unbreakable, Unbreakable, Unbreakable, Unbreakable, Unbreakable, Unbreakable, Unbreakable, Unbreakable],
    [Unbreakable, PlayerTile, Air, Flux, Flux, Unbreakable, Air, Unbreakable],
    [Unbreakable, Stone(Falling), Unbreakable, Box(Resting), Flux, Unbreakable, Air, Unbreakable],
    [Unbreakable, Key(YellowKey), Stone(Falling), Flux, Flux, Unbreakable, Air, Unbreakable],
    [Unbreakable, Stone(Falling), Flux, Flux, Flux, Lock(YellowKey), Air, Unbreakable],
    [Unbreakable, Unbreakable, Unbreakable, Unbreakable, Unbreakable, Unbreakable, Unbreakable, Unbreakable]
  ]

  lemma SampleCodes()
    ensures forall y, x :: 0 <= y < 6 && 0 <= x < 8 ==> TransformTile(SampleLevel[y][x]) == Some(SampleGrid[y][x])
  {
    forall y, x | 0 <= y < 6 && 0 <= x < 8
      ensures TransformTile(SampleLevel[y][x]) == Some(SampleGrid[y][x])
    {
      // One case per row, so that each row of both constants is unfolded on its own.
      if y == 0 {} else if y == 1 {} else if y == 2 {} else if y == 3 {} else if y == 4 {} else {}
    }
  }

  lemma SampleLevelBuilds()
    ensures FromTiles(SampleLevel) == Some(SampleGrid)
  {
    SampleCodes();
    assert |SampleLevel| == 6 && forall y :: 0 <= y < 6 ==> |SampleLevel[y]| == 8;
    var r := FromTiles(SampleLevel);
    assert r.Some?;
    CellwiseEqual(r.value, SampleGrid);
  }

  lemma SampleGridStarts()
    ensures Inv(World(SampleGrid, Player(1, 1)))
  {
    assert Walled(SampleGrid);
    assert PlayerOnly(SampleGrid, 1, 1);
  }

  /** The shipped level builds into a walled grid whose only PlayerTile is at
      (1, 1), where the game places the player. */
  lemma SampleLevelStarts()
    ensures FromTiles(SampleLevel).Some?
    ensures Inv(World(FromTiles(SampleLevel).value, Player(1, 1)))
  {
    SampleLevelBuilds();
    SampleGridStarts();
  }
}
