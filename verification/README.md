# Coin population of a tile-grid arcade board

This project models the game-state core of a small Swing arcade game
(`Board.java`). The player walks an 18 by 12 tile board and picks up coins
worth 50 points each. The model covers:

- how coins are placed (`populateCoins`), including its two "churn" draws;
- how coins are collected (`collectCoins`), including the one replenishing
  `populateCoins(1)`;
- the timer tick (`actionPerformed`), which moves the player and then collects;
- the constructor's initial `populateCoins(NUM_COINS)`.

Every `Random.nextInt(bound)` call is one value taken from the front of an
explicit `seq<int>` of draws, in the order the calls happen:

1. a column draw and a row draw for each placed coin;
2. the `nextInt(30)` add draw;
3. the draws of the nested `populateCoins(1)`, when the add draw was 1;
4. the `nextInt(20)` remove draw.

A draw sequence that runs out, or holds a value outside `[0, bound)`, does
not describe a run of the random source. Operations return it as an error
(`DrawsExhausted`, `DrawOutOfRange`). The one error in the game's own code
is `coins.remove(0)` on an empty list (`EmptyRemove`). It is proved
unreachable whenever coins were placed or the list was non-empty, which
covers every call the board makes.

Modules: `Grid` holds the constants and positions. `Outcomes` holds the
result type and `nextInt`. `CoinPool` is `populateCoins`. `Collection` is
`collectCoins` and the board state. `Engine` is the constructor and the tick.
`Scenarios` holds concrete runs that pin down the order of effects.

Where the code may surprise a reader, the model follows the code:

- A collecting tick calls `populateCoins(1)` once, however many coins it
  collected. Two coins on one tile leave the board one coin poorer
  (`Scenarios.OneReplenishmentPerTick`). So the list can shrink through
  collection, not only through churn.
- The churn runs only inside `populateCoins`, never on its own per tick.
  So a board with no coins never gains one again (`Engine.Run`,
  `Scenarios.BoardCanRunOutOfCoins`).
- The remove draw is `nextInt(20)` hitting 2, although the comment beside it
  speaks of 1 in 50.
- The removal runs after the nested add, in the same call, and takes the
  first-inserted coin.
- Every nested `populateCoins(1)` runs its own removal. So one collecting
  tick can take every uncollected coin off the board, although the list
  never ends shorter than the uncollected coins
  (`Scenarios.ChurnCanTakeUncollected`).
- Removing from an empty list is an error in the code, not a silent no-op.

## Model

| member | source | states |
|---|---|---|
| `Outcomes.NextInt` | Board.java:222-223 | one `nextInt(bound)` draw succeeds exactly when a draw is left and it lies in `[0, bound)`; it yields that first draw and leaves the rest in order |
| `CoinPool.Place` | Board.java:221-225 | the loop succeeds exactly when the first `2n` draws are in range for their axis; it appends the `n` positions those draws name, in order, behind the unchanged list, all on the board, and consumes exactly `2n` draws |
| `CoinPool.Populate` | Board.java:214-243 | `populateCoins(n)` consumes at least `2n + 2` draws from the front; the result is the old list plus every spawned coin with some coins dropped from the front, so the survivors keep their order; every spawned coin is on the board and the first `n` are the placed ones; each nested call appends at least one coin before its own removal, so the list ends at least `n - 1` coins longer; the add churn fires exactly when the first chance draw is 1; after the placement loop the outcome is one churn on the placed list (see `CoinPool.Churn`), so the last draw taken is the remove draw and it alone decides the final removal, whether or not the add fired; the call fails only when the placement draws are missing or out of range or that churn fails; the removal cannot fail when `n >= 1` or the list is non-empty |
| `CoinPool.Churn` | Board.java:227-239 | the two chance draws: the add fires exactly when the first is 1, and then at least one coin is spawned; there is an outcome of the add step, meeting every guarantee of that step (on 1, those of `populateCoins(1)`), after which the next draw, the last one taken, is the remove draw: on 2 exactly the front coin of that outcome goes and one more coin counts as dropped, otherwise the list stays; the churn fails only when the add step fails, when the remove draw is missing or out of range, or with `EmptyRemove` when it is 2 on an empty list; so the removal cannot fail on a non-empty list; survivors keep their order |
| `CoinPool.AddStep` | Board.java:230-234 | the `nextInt(30)` draw: on 1 the outcome satisfies every guarantee of `populateCoins(1)` on the rest of the draws; otherwise the list is unchanged and one draw is consumed; the list never shrinks; the step fails only when its draw is missing or out of range, or when it is 1 and the nested call fails |
| `CoinPool.AddThenRemove` | Board.java:232-239 | the add step followed by the removal of the front coin, on a draw of 2, satisfies every churn guarantee |
| `CoinPool.PlaceThenChurn` | Board.java:221-239 | the placement loop followed by the churn satisfies every guarantee of `populateCoins(n)` |
| `CoinPool.RemoveFiresWithoutAdd` | Board.java:236-238 | when the add draw misses and the remove draw is 2, `populateCoins(n)` succeeds exactly when `n >= 1` or the list is non-empty, and otherwise fails on removing from an empty list |
| `CoinPool.AddFiresWithoutNestedChurn` | Board.java:214-243 | when the add draw is 1 and the nested `populateCoins(1)` has no churn of its own, `populateCoins(n)` succeeds; it appends the `n` drawn coins and then the nested coin, and drops the front coin exactly when the outer remove draw is 2; it consumes exactly `2n + 6` draws |
| `CoinPool.ChurnAddWithoutNestedChurn` | Board.java:227-239 | the churn with a firing add draw and a nested call without churn succeeds; the nested coin is appended and the front coin goes exactly when the remove draw is 2 |
| `CoinPool.PopulateWithoutChurn` | Board.java:214-243 | when neither chance draw fires, `populateCoins(n)` appends exactly the `n` drawn coins behind the unchanged list and consumes exactly `2n + 2` draws |
| `Collection.CollectPass` | Board.java:247-257 | the number of coins taken is the number of coins on the tile; the kept coins are the old ones minus every coin on the tile, as a multiset, and a subsequence of the old list, so they keep their order |
| `Collection.CollectCoins` | Board.java:245-261 | the score grows by exactly `COIN_VAL` times the number of coins on the player's tile; with no coin there, nothing changes and no draw is taken; otherwise the list and the unused draws are exactly those of one `populateCoins(1)` on the uncollected coins, and the tick fails only when that call fails; every removal follows an appended coin, so the list never ends shorter than the uncollected coins; coins stay on the board; the removal never fails |
| `Collection.ReplenishWithoutChurn` | Board.java:245-261 | when neither churn draw fires, collection succeeds, the list after it is the uncollected coins in order followed by exactly one new coin at the drawn tile, however many coins were collected, and exactly four draws are consumed |
| `Collection.PlaceOneWithoutChurn` | Board.java:258-260 | the replenishing `populateCoins(1)` without churn appends exactly the one drawn coin and consumes four draws |
| `Engine.NewBoard` | Board.java:65-67 | the board's coins and unused draws are exactly those of the constructor's `populateCoins(5)` on the empty list, which succeeds exactly when the board is built; that leaves at least four coins, all on the board, and cannot fail on its removal |
| `Engine.Tick` | Board.java:75-84 | the player moves first and collection looks at the tile moved to; the score grows by `COIN_VAL` per coin on that tile; with no coin there, only the player's tile changes; otherwise the list and unused draws are what one `populateCoins(1)` makes of the coins left on other tiles, and the tick fails only when that call fails |
| `Engine.Run` | Board.java:69-84 | over any number of ticks, the score grows by a whole number of coins, `COIN_VAL` each; the player ends where the moves take it, applied in order; coins stay on the board; an empty coin list stays empty with the score and draws untouched; the removal never fails |
| `Scenarios.ChurnAddAndRemoveTogether` | Board.java:232-238 | both chance draws can fire in one call; the nested call's coin is appended before the oldest coin is dropped |
| `Scenarios.NestedAddOfChurn` | Board.java:221-239 | the nested `populateCoins(1)` appends its coin and neither of its own chance draws fires |
| `Scenarios.ChurnOfFirstCall` | Board.java:232-238 | the outer churn runs the nested call, then drops the front coin |
| `Scenarios.RemovalTakesOldest` | Board.java:237-238 | given coins `[a, b, c]`, a firing remove draw drops `a` |
| `Scenarios.RemoveFromEmptyFails` | Board.java:236-238 | `populateCoins(0)` on an empty list with a firing remove draw fails on the removal |
| `Scenarios.ChurnCanTakeUncollected` | Board.java:233-238 | with coins at (0, 0), (1, 1) and (2, 2) and the player at (0, 0), the draws `3 3 1 4 4 1 5 5 0 2 2 2` leave only (4, 4) and (5, 5): each of the two nested calls removes one uncollected coin |
| `Scenarios.OneReplenishmentPerTick` | Board.java:258-260 | however many coins are on the tile, all are scored, but only one coin is placed back: without churn, the list ends one coin longer than the uncollected coins |
| `Scenarios.StandStillOnCoin` | Board.java:81-84 | a player standing on the only coin scores 50; that coin is gone and one new coin is placed |
| `Scenarios.CollectsAfterMoving` | Board.java:81-84 | a coin on the tile the player just left is not collected |
| `Scenarios.BoardCanRunOutOfCoins` | Board.java:245-261 | collecting the last coin while the remove draw fires empties the board, and no later tick adds a coin |

## Left out

- The elapsed-time clock (`seconds`, Board.java:201-205) is left out. It is floating point, is rounded through `DecimalFormat`, and advances while painting rather than in the tick.
- Rendering is left out: `paintComponent`, `drawBackground`, `drawScore`, fonts and metrics. It only reads the state.
- `loadImage` is left out, because it is file I/O.
- The Swing `Timer` and the key listeners are left out, because they are event plumbing. `Engine.Run` stands in for the timer calling the tick repeatedly.
- Player.java and Coin.java are not part of this model.
  - `player.tick()` is an opaque update of the player's tile (`advance`).
  - The player's starting tile and score are parameters of `Engine.NewBoard`.
  - The score is an unbounded `nat`, so Java `int` overflow is not modelled.
  - `coins.removeAll` is modelled as removing exactly the collected coins. Identity equality and position equality give the same result there.
- Randomness is an explicit sequence of draws. The 1/30 and 1/20 frequencies are not stated. The two `Random` objects per call are merged into one stream in call order.
- `populateCoins` takes a `nat` count. The code never passes a negative count, and a negative count would place nothing.
