/** The board's life cycle: the constructor's initial population and the
    timer tick (`actionPerformed`), which moves the player and then collects. */
module Engine {
  import opened Grid
  import opened Outcomes
  import opened CoinPool
  import opened Collection

  /** `new Board()`: the player starts at `start` with `score`, and
      `populateCoins(NUM_COINS)` fills the empty coin list. */
  function NewBoard(start: Pos, score: nat, draws: seq<int>): (r: Result<Ticked>)
    ensures r.Ok? ==> r.value.board.player == start && r.value.board.score == score
    ensures r.Ok? ==> |r.value.board.coins| >= NUM_COINS - 1
    ensures r.Ok? ==> AllInBounds(r.value.board.coins)
    ensures r.Ok? <==> Populate([], NUM_COINS, draws).Ok?
    // the coins and the unused draws are those the population left
    ensures r.Ok? ==> r.value.board.coins == Populate([], NUM_COINS, draws).value.coins
    ensures r.Ok? ==> r.value.rest == Populate([], NUM_COINS, draws).value.rest
    ensures r != Err(EmptyRemove)
  {
    match Populate([], NUM_COINS, draws)
    case Err(e) => Err(e)
    case Ok(p) =>
      assert p.coins == p.spawned[p.dropped..];
      AppendedInBounds([], p);
      Ok(Ticked(Board(start, score, p.coins), p.rest, 0))
  }

  /** One timer tick: `player.tick()`, an update of the player's tile that
      this model leaves opaque as `advance`, followed by `collectCoins()`
      against the tile the player has just moved to. */
  function Tick(b: Board, advance: Pos -> Pos, draws: seq<int>): (r: Result<Ticked>)
    ensures r.Ok? ==> r.value.board.player == advance(b.player)
    ensures r.Ok? ==> r.value.collected == multiset(b.coins)[advance(b.player)]
    ensures r.Ok? ==> r.value.board.score == b.score + COIN_VAL * r.value.collected
    ensures advance(b.player) !in b.coins ==>
              r == Ok(Ticked(Board(advance(b.player), b.score, b.coins), draws, 0))
    ensures r.Ok? && advance(b.player) in b.coins ==>
              var p := Populate(CollectPass(b.coins, advance(b.player)).kept, 1, draws);
              p.Ok? && r.value.board.coins == p.value.coins && r.value.rest == p.value.rest
    ensures r.Err? ==>
              && advance(b.player) in b.coins
              && Populate(CollectPass(b.coins, advance(b.player)).kept, 1, draws) == Err(r.error)
    ensures r.Ok? && AllInBounds(b.coins) ==> AllInBounds(r.value.board.coins)
    ensures r != Err(EmptyRemove)
  {
    CollectCoins(b.(player := advance(b.player)), draws)
  }

  /** Ticks in sequence, the `i`-th moving the player by `moves[i]`; the
      draws flow from one tick to the next, and `collected` is the total. */
  function Run(b: Board, moves: seq<Pos -> Pos>, draws: seq<int>): (r: Result<Ticked>)
    decreases |moves|
    // the score only grows, by whole coins, COIN_VAL per collected coin
    ensures r.Ok? ==> r.value.board.score == b.score + COIN_VAL * r.value.collected
    // the player ends where the moves, applied first to last, take it
    ensures r.Ok? ==> r.value.board.player == Follow(b.player, moves)
    // coins never leave the board
    ensures r.Ok? && AllInBounds(b.coins) ==> AllInBounds(r.value.board.coins)
    // an empty coin list stays empty: only a collection replenishes, and
    // the churn runs only inside that replenishment
    ensures |b.coins| == 0 ==>
              && r.Ok?
              && r.value.board.coins == [] && r.value.board.score == b.score
              && r.value.rest == draws && r.value.collected == 0
    ensures r != Err(EmptyRemove)
  {
    if |moves| == 0 then Ok(Ticked(b, draws, 0))
    else
      match Run(b, moves[..|moves| - 1], draws)
      case Err(e) => Err(e)
      case Ok(before) =>
        match Tick(before.board, moves[|moves| - 1], before.rest)
        case Err(e) => Err(e)
        case Ok(after) =>
          FollowLast(b.player, moves);
          Ok(Ticked(after.board, after.rest, before.collected + after.collected))
  }

  /** Where the moves take a tile, the first move applied first. */
  function Follow(p: Pos, moves: seq<Pos -> Pos>): Pos
    decreases |moves|
  {
    if |moves| == 0 then p else Follow(moves[0](p), moves[1..])
  }

  /** The last move is applied last. */
  lemma {:induction false} FollowLast(p: Pos, moves: seq<Pos -> Pos>)
    requires |moves| > 0
    ensures Follow(p, moves) == moves[|moves| - 1](Follow(p, moves[..|moves| - 1]))
    decreases |moves|
  {
    if |moves| > 1 {
      FollowLast(moves[0](p), moves[1..]);
      assert moves[1..][..|moves| - 2] == moves[..|moves| - 1][1..];
    }
  }
}
