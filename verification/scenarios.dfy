/** Concrete runs of the board that pin down the order of effects. Each
    draw sequence lists, in call order, the column and row draws of each
    placed coin, then the `nextInt(30)` draw, the draws of a nested
    `populateCoins(1)` if that fired, and the `nextInt(20)` draw. */
module Scenarios {
  import opened Grid
  import opened Outcomes
  import opened CoinPool
  import opened Collection
  import opened Engine

  /** Both churn draws fire in one call: the nested call's coin is appended
      before the oldest coin is dropped. */
  lemma ChurnAddAndRemoveTogether(a: Pos, p: Pos, q: Pos)
    requires InBounds(p) && InBounds(q)
    ensures Populate([a], 1, [p.x, p.y, 1, q.x, q.y, 0, 0, 2])
            == Ok(Populated([p, q], [], [p, q], 1))
  {
    var draws: seq<int> := [p.x, p.y, 1, q.x, q.y, 0, 0, 2];
    assert AxisBound(0) == COLUMNS && AxisBound(1) == ROWS;
    assert PlacementDraws(draws, 1);
    assert draws[2..] == [1, q.x, q.y, 0, 0, 2];
    assert PlacedFrom(draws, 1) == [p];
    assert [a] + [p] == [a, p];
    assert Place([a], 1, draws) == Ok(Placed([a, p], [1, q.x, q.y, 0, 0, 2]));
    ChurnOfFirstCall(a, p, q);
  }

  /** The churn of the outer call above: the add draw fires, the nested call
      runs, and then the remove draw fires. */
  lemma ChurnOfFirstCall(a: Pos, p: Pos, q: Pos)
    requires InBounds(q)
    ensures Churn([a, p], [1, q.x, q.y, 0, 0, 2]) == Ok(Populated([p, q], [], [q], 1))
  {
    var draws: seq<int> := [1, q.x, q.y, 0, 0, 2];
    assert draws[1..] == [q.x, q.y, 0, 0, 2];
    NestedAddOfChurn(a, p, q);
    assert [a, p, q][1..] == [p, q];
  }

  /** The nested `populateCoins(1)` of the run above: it places one coin and
      neither of its own churn draws fires. */
  lemma NestedAddOfChurn(a: Pos, p: Pos, q: Pos)
    requires InBounds(q)
    ensures Populate([a, p], 1, [q.x, q.y, 0, 0, 2]) == Ok(Populated([a, p, q], [2], [q], 0))
  {
    var nested: seq<int> := [q.x, q.y, 0, 0, 2];
    assert AxisBound(0) == COLUMNS && AxisBound(1) == ROWS;
    assert PlacementDraws(nested, 1);
    assert nested[2..] == [0, 0, 2];
    assert PlacedFrom(nested, 1) == [q];
    assert [a, p] + [q] == [a, p, q];
    assert Place([a, p], 1, nested) == Ok(Placed([a, p, q], [0, 0, 2]));
    assert Churn([a, p, q], [0, 0, 2]) == Ok(Populated([a, p, q], [2], [], 0));
  }

  /** The removal takes the first-inserted coin, not a random one. */
  lemma RemovalTakesOldest(a: Pos, b: Pos, c: Pos)
    ensures Populate([a, b, c], 1, [7, 5, 0, 2]).Ok?
    ensures Populate([a, b, c], 1, [7, 5, 0, 2]).value.coins == [b, c, Pos(7, 5)]
  {
    var draws: seq<int> := [7, 5, 0, 2];
    assert draws[2..] == [0, 2] && [0, 2][1..] == [2];
    assert [a, b, c] + [Pos(7, 5)] == [a, b, c, Pos(7, 5)];
    assert Place([a, b, c], 1, draws) == Ok(Placed([a, b, c, Pos(7, 5)], [0, 2]));
    assert AddStep([a, b, c, Pos(7, 5)], [0, 2]) == Ok(Populated([a, b, c, Pos(7, 5)], [2], [], 0));
    assert [a, b, c, Pos(7, 5)][1..] == [b, c, Pos(7, 5)];
  }

  /** `populateCoins(0)` on an empty list whose remove draw fires removes
      from an empty list. */
  lemma RemoveFromEmptyFails()
    ensures Populate([], 0, [0, 2]) == Err(EmptyRemove)
  {
  }

  /** However many coins are collected, one coin is placed back: without
      churn the list ends `collected - 1` coins shorter. */
  lemma OneReplenishmentPerTick(b: Board, draws: seq<int>)
    requires b.player in b.coins
    requires |draws| >= 4
    requires 0 <= draws[0] < COLUMNS && 0 <= draws[1] < ROWS
    requires 0 <= draws[2] < ADD_BOUND && draws[2] != ADD_HIT
    requires 0 <= draws[3] < REMOVE_BOUND && draws[3] != REMOVE_HIT
    ensures CollectCoins(b, draws).Ok?
    ensures |CollectCoins(b, draws).value.board.coins| == |b.coins| - multiset(b.coins)[b.player] + 1
    ensures CollectCoins(b, draws).value.board.score == b.score + COIN_VAL * multiset(b.coins)[b.player]
  {
    ReplenishWithoutChurn(b, draws);
  }

  /** A player standing still on the only coin of an 18 by 12 board scores
      50; the coin is gone and one new coin takes its place. */
  lemma StandStillOnCoin()
    ensures Tick(Board(Pos(0, 0), 0, [Pos(0, 0)]), p => p, [5, 6, 0, 0])
            == Ok(Ticked(Board(Pos(0, 0), 50, [Pos(5, 6)]), [], 1))
  {
    var b := Board(Pos(0, 0), 0, [Pos(0, 0)]);
    assert [Pos(0, 0)][1..] == [];
    assert CollectPass([Pos(0, 0)], Pos(0, 0)) == Pass([], 1);
    ReplenishWithoutChurn(b, [5, 6, 0, 0]);
  }

  /** The coin on the tile the player leaves is not collected: collection
      looks at the tile after `player.tick()`. */
  lemma CollectsAfterMoving()
    ensures Tick(Board(Pos(0, 0), 0, [Pos(0, 0)]), p => Pos(1, 0), [])
            == Ok(Ticked(Board(Pos(1, 0), 0, [Pos(0, 0)]), [], 0))
  {
  }

  /** Collecting the last coin while the remove draw fires empties the
      board, and then no later tick ever adds a coin again. */
  lemma BoardCanRunOutOfCoins(p: Pos, moves: seq<Pos -> Pos>, later: seq<int>)
    requires InBounds(p)
    ensures CollectCoins(Board(p, 0, [p]), [0, 0, 0, 2] + later)
            == Ok(Ticked(Board(p, COIN_VAL, []), later, 1))
    ensures Run(Board(p, COIN_VAL, []), moves, later).value.board.coins == []
  {
    var draws := [0, 0, 0, 2] + later;
    assert AxisBound(0) == COLUMNS && AxisBound(1) == ROWS;
    assert PlacementDraws(draws, 1);
    assert draws[2..] == [0, 2] + later && ([0, 2] + later)[2..] == later;
    assert [p][1..] == [];
    assert CollectPass([], p) == Pass([], 0);
    assert CollectPass([p], p) == Pass([], 1);
    assert PlacedFrom(draws, 1) == [Pos(0, 0)];
    assert Place([], 1, draws) == Ok(Placed([Pos(0, 0)], [0, 2] + later));
    assert [Pos(0, 0)][1..] == [];
    assert Churn([Pos(0, 0)], [0, 2] + later) == Ok(Populated([], later, [], 1));
  }

  /** Each nested `populateCoins(1)` runs its own removal, so one collecting
      tick can lose every uncollected coin: the player takes the coin at
      (0, 0) and both other coins go, one per nested call's remove draw. */
  lemma ChurnCanTakeUncollected()
    ensures CollectCoins(Board(Pos(0, 0), 0, [Pos(0, 0), Pos(1, 1), Pos(2, 2)]),
                         [3, 3, 1, 4, 4, 1, 5, 5, 0, 2, 2, 2]).Ok?
    ensures CollectCoins(Board(Pos(0, 0), 0, [Pos(0, 0), Pos(1, 1), Pos(2, 2)]),
                         [3, 3, 1, 4, 4, 1, 5, 5, 0, 2, 2, 2]).value.board.coins
            == [Pos(4, 4), Pos(5, 5)]
  {
    var coins := [Pos(0, 0), Pos(1, 1), Pos(2, 2)];
    assert coins[1..] == [Pos(1, 1), Pos(2, 2)] && coins[1..][1..] == [Pos(2, 2)];
    assert CollectPass([Pos(2, 2)][1..], Pos(0, 0)) == Pass([], 0);
    assert CollectPass([Pos(2, 2)], Pos(0, 0)) == Pass([Pos(2, 2)], 0);
    assert CollectPass(coins[1..], Pos(0, 0)) == Pass([Pos(1, 1), Pos(2, 2)], 0);
    assert CollectPass(coins, Pos(0, 0)).kept == [Pos(1, 1), Pos(2, 2)];
    OuterCallOfLongChurn(Pos(1, 1), Pos(2, 2));
  }

  /** The replenishing call of the tick above, on the uncollected `[a, b]`. */
  lemma OuterCallOfLongChurn(a: Pos, b: Pos)
    ensures Populate([a, b], 1, [3, 3, 1, 4, 4, 1, 5, 5, 0, 2, 2, 2]).Ok?
    ensures Populate([a, b], 1, [3, 3, 1, 4, 4, 1, 5, 5, 0, 2, 2, 2]).value.coins
            == [Pos(4, 4), Pos(5, 5)]
  {
    OuterPlaceOfLongChurn(a, b);
    OuterChurnOfLongChurn(a, b);
  }

  /** The placement loop of the replenishing call appends (3, 3). */
  lemma OuterPlaceOfLongChurn(a: Pos, b: Pos)
    ensures Place([a, b], 1, [3, 3, 1, 4, 4, 1, 5, 5, 0, 2, 2, 2])
            == Ok(Placed([a, b, Pos(3, 3)], [1, 4, 4, 1, 5, 5, 0, 2, 2, 2]))
  {
    var draws: seq<int> := [3, 3, 1, 4, 4, 1, 5, 5, 0, 2, 2, 2];
    assert draws[2..] == [1, 4, 4, 1, 5, 5, 0, 2, 2, 2];
    assert [a, b] + [Pos(3, 3)] == [a, b, Pos(3, 3)];
  }

  /** The churn of the replenishing call: the nested call runs, then the
      outer remove draw drops the front coin left by it. */
  lemma OuterChurnOfLongChurn(a: Pos, b: Pos)
    ensures Churn([a, b, Pos(3, 3)], [1, 4, 4, 1, 5, 5, 0, 2, 2, 2]).Ok?
    ensures Churn([a, b, Pos(3, 3)], [1, 4, 4, 1, 5, 5, 0, 2, 2, 2]).value.coins
            == [Pos(4, 4), Pos(5, 5)]
  {
    var draws: seq<int> := [1, 4, 4, 1, 5, 5, 0, 2, 2, 2];
    assert draws[1..] == [4, 4, 1, 5, 5, 0, 2, 2, 2];
    MiddleCallOfLongChurn(a, b);
    var added := AddStep([a, b, Pos(3, 3)], draws);
    assert added.Ok? && added.value.coins == [Pos(3, 3), Pos(4, 4), Pos(5, 5)] && added.value.rest == [2];
    assert [Pos(3, 3), Pos(4, 4), Pos(5, 5)][1..] == [Pos(4, 4), Pos(5, 5)];
  }

  /** The first nested call: it appends (4, 4), its own nested call appends
      (5, 5) and drops `a`, and its own remove draw drops `b`. */
  lemma MiddleCallOfLongChurn(a: Pos, b: Pos)
    ensures Populate([a, b, Pos(3, 3)], 1, [4, 4, 1, 5, 5, 0, 2, 2, 2]).Ok?
    ensures Populate([a, b, Pos(3, 3)], 1, [4, 4, 1, 5, 5, 0, 2, 2, 2]).value.coins
            == [Pos(3, 3), Pos(4, 4), Pos(5, 5)]
    ensures Populate([a, b, Pos(3, 3)], 1, [4, 4, 1, 5, 5, 0, 2, 2, 2]).value.rest == [2]
  {
    var draws: seq<int> := [4, 4, 1, 5, 5, 0, 2, 2, 2];
    var rest: seq<int> := [1, 5, 5, 0, 2, 2, 2];
    assert draws[2..] == rest && rest[1..] == [5, 5, 0, 2, 2, 2];
    assert [a, b, Pos(3, 3)] + [Pos(4, 4)] == [a, b, Pos(3, 3), Pos(4, 4)];
    assert Place([a, b, Pos(3, 3)], 1, draws) == Ok(Placed([a, b, Pos(3, 3), Pos(4, 4)], rest));
    InnerCallOfLongChurn(a, b);
    assert [b, Pos(3, 3), Pos(4, 4), Pos(5, 5)][1..] == [Pos(3, 3), Pos(4, 4), Pos(5, 5)];
    assert [2, 2][1..] == [2];
  }

  /** The innermost call: it appends (5, 5), its add draw misses and its
      remove draw drops `a`. */
  lemma InnerCallOfLongChurn(a: Pos, b: Pos)
    ensures Populate([a, b, Pos(3, 3), Pos(4, 4)], 1, [5, 5, 0, 2, 2, 2]).Ok?
    ensures Populate([a, b, Pos(3, 3), Pos(4, 4)], 1, [5, 5, 0, 2, 2, 2]).value.coins
            == [b, Pos(3, 3), Pos(4, 4), Pos(5, 5)]
    ensures Populate([a, b, Pos(3, 3), Pos(4, 4)], 1, [5, 5, 0, 2, 2, 2]).value.rest == [2, 2]
  {
    var draws: seq<int> := [5, 5, 0, 2, 2, 2];
    var coins := [a, b, Pos(3, 3), Pos(4, 4), Pos(5, 5)];
    assert draws[2..] == [0, 2, 2, 2] && [0, 2, 2, 2][1..] == [2, 2, 2] && [2, 2, 2][1..] == [2, 2];
    assert [a, b, Pos(3, 3), Pos(4, 4)] + [Pos(5, 5)] == coins;
    assert Place([a, b, Pos(3, 3), Pos(4, 4)], 1, draws) == Ok(Placed(coins, [0, 2, 2, 2]));
    assert AddStep(coins, [0, 2, 2, 2]) == Ok(Populated(coins, [2, 2, 2], [], 0));
    assert coins[1..] == [b, Pos(3, 3), Pos(4, 4), Pos(5, 5)];
  }
}
