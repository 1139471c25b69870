/** `collectCoins`: the player picks up every coin on its tile, scores
    `COIN_VAL` for each, and one replenishing `populateCoins(1)` follows. */
module Collection {
  import opened Grid
  import opened Outcomes
  import opened CoinPool

  /** The game state the tick works on: the player's tile and score, and the
      coin list in insertion order. */
  datatype Board = Board(player: Pos, score: nat, coins: seq<Pos>)

  /** A board after a step, the unused draws, and how many coins the step
      collected. */
  datatype Ticked = Ticked(board: Board, rest: seq<int>, collected: nat)

  /** `a` is `b` with some elements left out, the rest in their order. */
  predicate IsSubsequence(a: seq<Pos>, b: seq<Pos>)
    decreases |b|
  {
    || |a| == 0
    || (|b| > 0 && a[0] == b[0] && IsSubsequence(a[1..], b[1..]))
    || (|b| > 0 && IsSubsequence(a, b[1..]))
  }

  /** What the pass over the coin list leaves behind and how many it took. */
  datatype Pass = Pass(kept: seq<Pos>, taken: nat)

  /** The loop over the coin list: every coin equal to `at` is taken, every
      other coin is kept, in order. */
  function CollectPass(coins: seq<Pos>, at: Pos): (r: Pass)
    ensures r.taken == multiset(coins)[at]
    ensures multiset(r.kept) == multiset(coins)[at := 0]
    ensures |r.kept| + r.taken == |coins|
    ensures IsSubsequence(r.kept, coins)
  {
    if |coins| == 0 then Pass([], 0)
    else
      var tail := CollectPass(coins[1..], at);
      assert coins == [coins[0]] + coins[1..];
      assert multiset(coins) == multiset{coins[0]} + multiset(coins[1..]);
      if coins[0] == at then Pass(tail.kept, tail.taken + 1)
      else Pass([coins[0]] + tail.kept, tail.taken)
  }

  /** `collectCoins` on board `b`, with `draws` feeding the replenishing
      `populateCoins(1)`. */
  function CollectCoins(b: Board, draws: seq<int>): (r: Result<Ticked>)
    ensures r.Ok? ==> r.value.collected == multiset(b.coins)[b.player]
    ensures r.Ok? ==> r.value.board.player == b.player
    ensures r.Ok? ==> r.value.board.score == b.score + COIN_VAL * r.value.collected
    // nothing on the tile: nothing changes and no draw is taken
    ensures b.player !in b.coins ==> r == Ok(Ticked(b, draws, 0))
    // something collected: the list is what one populateCoins(1) makes of
    // the uncollected coins, and the draws are what that call left
    ensures r.Ok? && b.player in b.coins ==>
              var p := Populate(CollectPass(b.coins, b.player).kept, 1, draws);
              p.Ok? && r.value.board.coins == p.value.coins && r.value.rest == p.value.rest
    // and it fails only when that call fails
    ensures r.Err? ==>
              b.player in b.coins && Populate(CollectPass(b.coins, b.player).kept, 1, draws) == Err(r.error)
    // every removal follows an appended coin, so the list never ends
    // shorter than the uncollected coins (though the churn may drop some)
    ensures r.Ok? && b.player in b.coins ==>
              |r.value.board.coins| >= |b.coins| - r.value.collected
    ensures r.Ok? && AllInBounds(b.coins) ==> AllInBounds(r.value.board.coins)
    ensures r != Err(EmptyRemove)
  {
    var pass := CollectPass(b.coins, b.player);
    assert pass.taken == 0 <==> b.player !in b.coins by {
      assert b.player in b.coins <==> b.player in multiset(b.coins);
    }
    if pass.taken == 0 then
      SubsequenceOfSameSize(pass.kept, b.coins);
      Ok(Ticked(b, draws, 0))
    else
      match Populate(pass.kept, 1, draws)
      case Err(e) => Err(e)
      case Ok(p) =>
        assert AllInBounds(b.coins) ==> AllInBounds(p.coins) by {
          if AllInBounds(b.coins) {
            KeptInBounds(pass.kept, b.coins);
            AppendedInBounds(pass.kept, p);
          }
        }
        Ok(Ticked(Board(b.player, b.score + COIN_VAL * pass.taken, p.coins), p.rest, pass.taken))
  }

  /** A subsequence as long as the whole is the whole. */
  lemma {:induction false} SubsequenceOfSameSize(a: seq<Pos>, b: seq<Pos>)
    requires IsSubsequence(a, b) && |a| == |b|
    ensures a == b
    decreases |b|
  {
    if |a| > 0 {
      if a[0] == b[0] && IsSubsequence(a[1..], b[1..]) {
        SubsequenceOfSameSize(a[1..], b[1..]);
        assert a == [a[0]] + a[1..];
      } else {
        SubsequenceNoLonger(a, b[1..]);
      }
    }
  }

  lemma {:induction false} SubsequenceNoLonger(a: seq<Pos>, b: seq<Pos>)
    requires IsSubsequence(a, b)
    ensures |a| <= |b|
    decreases |b|
  {
    if |a| > 0 {
      if a[0] == b[0] && IsSubsequence(a[1..], b[1..]) {
        SubsequenceNoLonger(a[1..], b[1..]);
      } else {
        SubsequenceNoLonger(a, b[1..]);
      }
    }
  }

  /** A subsequence of an in-bounds list is in bounds. */
  lemma {:induction false} KeptInBounds(a: seq<Pos>, b: seq<Pos>)
    requires IsSubsequence(a, b) && AllInBounds(b)
    ensures AllInBounds(a)
    decreases |b|
  {
    if |a| > 0 {
      assert InBounds(b[0]);
      assert AllInBounds(b[1..]) by {
        forall i | 0 <= i < |b| - 1 ensures InBounds(b[1..][i]) {
          assert b[1..][i] == b[i + 1];
        }
      }
      if a[0] == b[0] && IsSubsequence(a[1..], b[1..]) {
        KeptInBounds(a[1..], b[1..]);
        forall i | 0 <= i < |a| ensures InBounds(a[i]) {
          if i > 0 {
            assert a[i] == a[1..][i - 1];
          }
        }
      } else {
        KeptInBounds(a, b[1..]);
      }
    }
  }

  /** After `populateCoins` on an in-bounds list, every coin is in bounds. */
  lemma AppendedInBounds(coins: seq<Pos>, p: Populated)
    requires AllInBounds(coins) && AllInBounds(p.spawned)
    requires p.dropped <= |coins| + |p.spawned|
    requires p.coins == (coins + p.spawned)[p.dropped..]
    ensures AllInBounds(p.coins)
  {
  }

  /** When both churn draws miss, collecting leaves the uncollected coins in
      their order followed by exactly one new coin, at the tile the first two
      draws name, however many coins were collected, and consumes exactly
      four draws. */
  lemma ReplenishWithoutChurn(b: Board, draws: seq<int>)
    requires b.player in b.coins
    requires |draws| >= 4
    requires 0 <= draws[0] < COLUMNS && 0 <= draws[1] < ROWS
    requires 0 <= draws[2] < ADD_BOUND && draws[2] != ADD_HIT
    requires 0 <= draws[3] < REMOVE_BOUND && draws[3] != REMOVE_HIT
    ensures CollectCoins(b, draws).Ok?
    ensures CollectCoins(b, draws).value.board.coins
            == CollectPass(b.coins, b.player).kept + [Pos(draws[0], draws[1])]
    ensures CollectCoins(b, draws).value.rest == draws[4..]
  {
    PlaceOneWithoutChurn(CollectPass(b.coins, b.player).kept, draws);
  }

  /** The replenishing `populateCoins(1)` without churn appends the one
      drawn coin. */
  lemma PlaceOneWithoutChurn(kept: seq<Pos>, draws: seq<int>)
    requires |draws| >= 4
    requires 0 <= draws[0] < COLUMNS && 0 <= draws[1] < ROWS
    requires 0 <= draws[2] < ADD_BOUND && draws[2] != ADD_HIT
    requires 0 <= draws[3] < REMOVE_BOUND && draws[3] != REMOVE_HIT
    ensures Populate(kept, 1, draws)
            == Ok(Populated(kept + [Pos(draws[0], draws[1])], draws[4..], [Pos(draws[0], draws[1])], 0))
  {
    assert PlacementDraws(draws, 1) by {
      assert AxisBound(0) == COLUMNS && AxisBound(1) == ROWS;
    }
    PopulateWithoutChurn(kept, 1, draws);
    assert PlacedFrom(draws, 1) == [Pos(draws[0], draws[1])];
  }
}
