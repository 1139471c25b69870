/** The board's fixed configuration and the tile positions that the player
    and the coins occupy. */
module Grid {

  /** Number of tile rows and columns of the board. */
  const ROWS: nat := 12
  const COLUMNS: nat := 18

  /** Coins placed when a board is created, and the score one coin is worth. */
  const NUM_COINS: nat := 5
  const COIN_VAL: nat := 50

  /** A tile position: column `x`, row `y`. Two positions are equal iff both
      components are. */
  datatype Pos = Pos(x: int, y: int)

  predicate InBounds(p: Pos) {
    0 <= p.x < COLUMNS && 0 <= p.y < ROWS
  }

  predicate AllInBounds(ps: seq<Pos>) {
    forall i :: 0 <= i < |ps| ==> InBounds(ps[i])
  }
}
