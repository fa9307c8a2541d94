/** Tile kinds of the falling-rocks puzzle and their per-kind capability queries.

    The class hierarchy of the game (`Air`, `Flux`, `Unbreakable`, `PlayerTile`,
    `Stone`, `Box`, `Key`, `LockTile`) becomes one closed datatype.  The falling
    strategy object that a `Stone` or `Box` carries collapses to a two-value
    `FallState`, and a key configuration collapses to its integer `key_id`.
 */
module Tiles {

  /** The state a Stone or Box remembers between ticks. */
  datatype FallState = Falling | Resting

  datatype Tile =
    | Air
    | Flux
    | Unbreakable
    | PlayerTile
    | Stone(state: FallState)
    | Box(state: FallState)
    | Key(keyId: int)
    | Lock(keyId: int)

  /** The two key configurations the game defines (yellow and the other colour). */
  const YellowKey: int := 1
  const OtherKey: int := 2

  /** Only `Air` is air: `Flux` is walkable but supports rocks and blocks pushes. */
  predicate IsAir(t: Tile) {
    t.Air?
  }

  /** Only a lock with the same key id fits; every other tile, keys included, does not. */
  predicate Fits(t: Tile, keyId: int) {
    t.Lock? && t.keyId == keyId
  }

  /** Tiles that carry a fall state and take part in gravity. */
  predicate IsFallable(t: Tile) {
    t.Stone? || t.Box?
  }

  /** The two kinds of rock whose numbers gravity, pushes and unlocking keep. */
  datatype Rock = StoneRock | BoxRock

  predicate IsRock(t: Tile, k: Rock) {
    match k
    case StoneRock => t.Stone?
    case BoxRock => t.Box?
  }

  /** The fall state a tile lying directly below a Stone/Box hands to it. */
  function BlockOnTopState(below: Tile): (s: FallState)
    ensures s == Falling <==> IsAir(below)
  {
    if below.Air? then Falling else Resting
  }

  /** The same Stone or Box with its remembered state replaced. */
  function WithState(t: Tile, s: FallState): (r: Tile)
    requires IsFallable(t)
    ensures IsFallable(r) && r.state == s
    ensures r.Stone? == t.Stone? && r.Box? == t.Box?
  {
    if t.Stone? then Stone(s) else Box(s)
  }
}
