/** `populateCoins`: place coins at random tiles, then the two churn draws
    that may add one more coin and may drop the oldest one. */
module CoinPool {
  import opened Grid
  import opened Outcomes

  /** The add-churn draw is `nextInt(ADD_BOUND)` and fires on `ADD_HIT`; the
      remove-churn draw is `nextInt(REMOVE_BOUND)` and fires on `REMOVE_HIT`. */
  const ADD_BOUND: nat := 30
  const ADD_HIT: int := 1
  const REMOVE_BOUND: nat := 20
  const REMOVE_HIT: int := 2

  /** Bound of the `i`-th placement draw: columns for even `i`, rows for odd. */
  function AxisBound(i: nat): nat {
    if i % 2 == 0 then COLUMNS else ROWS
  }

  /** The first `2 * n` draws exist and each lies in its axis' range. */
  predicate PlacementDraws(draws: seq<int>, n: nat) {
    2 * n <= |draws| && forall i :: 0 <= i < 2 * n ==> 0 <= draws[i] < AxisBound(i)
  }

  /** The `n` positions read from the first `2 * n` draws, column before row. */
  function PlacedFrom(draws: seq<int>, n: nat): (ps: seq<Pos>)
    requires 2 * n <= |draws|
  {
    seq(n, i requires 0 <= i < n => Pos(draws[2 * i], draws[2 * i + 1]))
  }

  lemma PlacedFromCons(draws: seq<int>, n: nat)
    requires 1 <= n && 2 * n <= |draws|
    ensures PlacedFrom(draws, n) == [Pos(draws[0], draws[1])] + PlacedFrom(draws[2..], n - 1)
  {
  }

  lemma PlacementDrawsCons(draws: seq<int>, n: nat)
    requires 1 <= n
    ensures PlacementDraws(draws, n) <==>
              && 2 <= |draws|
              && 0 <= draws[0] < COLUMNS && 0 <= draws[1] < ROWS
              && PlacementDraws(draws[2..], n - 1)
  {
  }

  /** What placing coins produced: the new list and the unused draws. */
  datatype Placed = Placed(coins: seq<Pos>, rest: seq<int>)

  /** The placement loop: `n` times, draw a column, draw a row and append a
      coin there. Positions are not checked against other coins or the
      player. */
  function Place(coins: seq<Pos>, n: nat, draws: seq<int>): (r: Result<Placed>)
    decreases n
    ensures r.Ok? <==> PlacementDraws(draws, n)
    ensures r.Err? ==> r.error != EmptyRemove
    ensures r.Ok? ==> r.value.coins == coins + PlacedFrom(draws, n)
    ensures r.Ok? ==> r.value.rest == draws[2 * n..]
    ensures r.Ok? ==> AllInBounds(r.value.coins[|coins|..])
  {
    if n == 0 then Ok(Placed(coins, draws))
    else
      PlacementDrawsCons(draws, n);
      var col :- NextInt(draws, COLUMNS);
      var row :- NextInt(col.rest, ROWS);
      assert row.rest == draws[2..];
      match Place(coins + [Pos(col.value, row.value)], n - 1, row.rest)
      case Err(e) => Err(e)
      case Ok(placed) =>
        PlacedFromCons(draws, n);
        Ok(placed)
  }

  /** What `populateCoins` produced: the new list and the unused draws, and
      a log of every coin appended (`spawned`, in order, including those of
      the nested call) and of how many coins were taken off the front
      (`dropped`). */
  datatype Populated = Populated(coins: seq<Pos>, rest: seq<int>, spawned: seq<Pos>, dropped: nat)

  /** What a successful `populateCoins(n)` guarantees about its outcome `p`:
      the facts below, and that after the placement loop the rest is one
      churn on the placed list. */
  ghost predicate PopulateSpec(coins: seq<Pos>, n: nat, draws: seq<int>, p: Populated)
    decreases |draws|, 2
  {
    && PopulateFacts(coins, n, draws, p)
    && ChurnSpec(coins + PlacedFrom(draws, n), draws[2 * n..],
                 Populated(p.coins, p.rest, p.spawned[n..], p.dropped))
  }

  /** The draw, queue and size facts of a successful `populateCoins(n)`. */
  ghost predicate PopulateFacts(coins: seq<Pos>, n: nat, draws: seq<int>, p: Populated) {
    // draws are consumed from the front, at least the placement and two churn draws
    && 2 * n + 2 <= |draws| && |p.rest| <= |draws| - 2 * n - 2
    && p.rest == draws[|draws| - |p.rest|..]
    // coins are appended at the back and removed only at the front
    && p.dropped <= |coins| + |p.spawned|
    && p.coins == (coins + p.spawned)[p.dropped..]
    && |p.spawned| >= n && AllInBounds(p.spawned)
    && p.spawned[..n] == PlacedFrom(draws, n)
    // at most one removal per call, and each nested call adds at least one coin
    && p.dropped + n <= |p.spawned| + 1
    && |p.coins| + 1 >= |coins| + n
    // the add churn fires exactly when the first chance draw is 1
    && (|p.spawned| > n <==> draws[2 * n] == ADD_HIT)
    // without the add churn the second chance draw follows directly and
    // alone decides the removal
    && (draws[2 * n] != ADD_HIT ==>
          && p.rest == draws[2 * n + 2..]
          && (p.dropped == 1 <==> draws[2 * n + 1] == REMOVE_HIT)
          && p.dropped <= 1)
  }

  /** `populateCoins(n)`: place `n` coins, then run the churn draws. */
  function Populate(coins: seq<Pos>, n: nat, draws: seq<int>): (r: Result<Populated>)
    decreases |draws|, 2
    ensures r.Ok? ==> PopulateSpec(coins, n, draws, r.value)
    // the call fails only when the placement draws do or the churn fails
    ensures r.Err? ==>
              || !PlacementDraws(draws, n)
              || Churn(coins + PlacedFrom(draws, n), draws[2 * n..]) == r
    // the removal can only fail when nothing was placed into an empty list
    ensures (n >= 1 || |coins| >= 1) ==> r != Err(EmptyRemove)
  {
    match Place(coins, n, draws)
    case Err(e) => Err(e)
    case Ok(placed) =>
      match Churn(placed.coins, placed.rest)
      case Err(e) => Err(e)
      case Ok(churned) =>
        var p := Populated(churned.coins, churned.rest, PlacedFrom(draws, n) + churned.spawned, churned.dropped);
        PlaceThenChurn(coins, n, draws, placed, churned);
        Ok(p)
  }

  /** Composing the placement loop with the churn gives `PopulateSpec`. */
  lemma PlaceThenChurn(coins: seq<Pos>, n: nat, draws: seq<int>, placed: Placed, churned: Populated)
    requires PlacementDraws(draws, n)
    requires placed.coins == coins + PlacedFrom(draws, n) && placed.rest == draws[2 * n..]
    requires AllInBounds(placed.coins[|coins|..])
    requires ChurnSpec(placed.coins, placed.rest, churned)
    ensures PopulateSpec(coins, n, draws,
                         Populated(churned.coins, churned.rest, PlacedFrom(draws, n) + churned.spawned, churned.dropped))
  {
    PlaceThenChurnFacts(coins, n, draws, placed, churned);
    var spawned := PlacedFrom(draws, n) + churned.spawned;
    assert spawned[n..] == churned.spawned;
    assert Populated(churned.coins, churned.rest, spawned[n..], churned.dropped) == churned;
  }

  /** The draw, queue and size facts of the composition. */
  lemma PlaceThenChurnFacts(coins: seq<Pos>, n: nat, draws: seq<int>, placed: Placed, churned: Populated)
    requires PlacementDraws(draws, n)
    requires placed.coins == coins + PlacedFrom(draws, n) && placed.rest == draws[2 * n..]
    requires AllInBounds(placed.coins[|coins|..])
    requires ChurnFacts(placed.coins, placed.rest, churned)
    ensures PopulateFacts(coins, n, draws,
                          Populated(churned.coins, churned.rest, PlacedFrom(draws, n) + churned.spawned, churned.dropped))
  {
    var spawned := PlacedFrom(draws, n) + churned.spawned;
    assert spawned[n..] == churned.spawned;
    assert placed.coins[|coins|..] == PlacedFrom(draws, n);
    assert AllInBounds(spawned) by {
      forall i | 0 <= i < |spawned| ensures InBounds(spawned[i]) {
        if i < n {
          assert spawned[i] == placed.coins[|coins|..][i];
        } else {
          assert spawned[i] == churned.spawned[i - n];
        }
      }
    }
    assert placed.coins + churned.spawned == coins + spawned;
    assert churned.rest == draws[|draws| - |churned.rest|..];
  }

  /** What a successful churn guarantees about its outcome `p`: the facts
      below, and that there is an outcome `added` of the add step, with all
      the add step guarantees, after which the remove draw is the last one
      taken and alone decides whether the front coin goes, whether or not
      the add fired. */
  ghost predicate ChurnSpec(coins: seq<Pos>, draws: seq<int>, p: Populated)
    decreases |draws|, 1
  {
    && ChurnFacts(coins, draws, p)
    && (exists added ::
          && AddSpec(coins, draws, added)
          && AddShape(coins, draws, added)
          && RemoveStep(added, p)
          && added.rest[0] == draws[|draws| - |p.rest| - 1])
  }

  /** The draw, queue and size facts of a successful churn. */
  ghost predicate ChurnFacts(coins: seq<Pos>, draws: seq<int>, p: Populated) {
    && 2 <= |draws| && |p.rest| <= |draws| - 2
    && p.rest == draws[|draws| - |p.rest|..]
    && p.dropped <= |coins| + |p.spawned|
    && p.coins == (coins + p.spawned)[p.dropped..]
    && AllInBounds(p.spawned)
    && p.dropped <= |p.spawned| + 1
    && (|p.spawned| > 0 <==> draws[0] == ADD_HIT)
    && (draws[0] != ADD_HIT ==>
          && p.rest == draws[2..]
          && (p.dropped == 1 <==> draws[1] == REMOVE_HIT)
          && p.dropped <= 1)
  }

  /** What the churn needs to know of the add step's outcome `p`: on a miss
      the list is untouched and one draw is taken; on a hit, coins were
      appended at the back (some perhaps dropped from the front) and at
      least five draws were taken. */
  ghost predicate AddShape(coins: seq<Pos>, draws: seq<int>, p: Populated) {
    && 1 <= |draws| && |p.rest| < |draws|
    && p.rest == draws[|draws| - |p.rest|..]
    && (draws[0] != ADD_HIT ==> p == Populated(coins, draws[1..], [], 0))
    && (draws[0] == ADD_HIT ==>
          && |p.rest| <= |draws| - 5
          && p.dropped <= |coins| + |p.spawned|
          && p.coins == (coins + p.spawned)[p.dropped..]
          && 1 <= |p.spawned| && AllInBounds(p.spawned)
          && p.dropped <= |p.spawned|)
  }

  /** `p` is `added` after the remove draw `added.rest[0]`: on 2 the front
      coin goes, otherwise the list stays. */
  ghost predicate RemoveStep(added: Populated, p: Populated) {
    && 1 <= |added.rest| && p.rest == added.rest[1..] && p.spawned == added.spawned
    && (added.rest[0] == REMOVE_HIT ==>
          |added.coins| > 0 && p.coins == added.coins[1..] && p.dropped == added.dropped + 1)
    && (added.rest[0] != REMOVE_HIT ==> p.coins == added.coins && p.dropped == added.dropped)
  }

  /** The two churn draws at the end of `populateCoins`: the add step, then
      draw `nextInt(20)` and on 2 remove the list's first coin. The two draws
      are independent: both, either or neither may fire. */
  function Churn(coins: seq<Pos>, draws: seq<int>): (r: Result<Populated>)
    decreases |draws|, 1
    ensures r.Ok? ==> ChurnSpec(coins, draws, r.value)
    // the churn fails only when the add step fails, when the remove draw
    // is missing or out of range, or when it fires on an empty list
    ensures r.Err? ==>
              || AddStep(coins, draws) == r
              || (&& AddStep(coins, draws).Ok?
                  && var added := AddStep(coins, draws).value;
                     || |added.rest| == 0
                     || !(0 <= added.rest[0] < REMOVE_BOUND)
                     || (added.rest[0] == REMOVE_HIT && |added.coins| == 0 && r == Err(EmptyRemove)))
    ensures |coins| >= 1 ==> r != Err(EmptyRemove)
  {
    match AddStep(coins, draws)
    case Err(e) => Err(e)
    case Ok(added) =>
      match NextInt(added.rest, REMOVE_BOUND)
      case Err(e) => Err(e)
      case Ok(remove) =>
        if remove.value != REMOVE_HIT then
          var p := Populated(added.coins, remove.rest, added.spawned, added.dropped);
          AddThenRemove(coins, draws, added, p);
          Ok(p)
        else if |added.coins| == 0 then Err(EmptyRemove)
        else
          var p := Populated(added.coins[1..], remove.rest, added.spawned, added.dropped + 1);
          AddThenRemove(coins, draws, added, p);
          Ok(p)
  }

  /** What the add step guarantees about its outcome `p`. */
  ghost predicate AddSpec(coins: seq<Pos>, draws: seq<int>, p: Populated)
    decreases |draws|, 0
  {
    && 1 <= |draws|
    && (draws[0] == ADD_HIT ==> PopulateSpec(coins, 1, draws[1..], p))
    && (draws[0] != ADD_HIT ==> p == Populated(coins, draws[1..], [], 0))
  }

  /** The add churn: draw `nextInt(30)` and on 1 run `populateCoins(1)`,
      which churns again. */
  function AddStep(coins: seq<Pos>, draws: seq<int>): (r: Result<Populated>)
    decreases |draws|, 0
    ensures r.Ok? ==> AddSpec(coins, draws, r.value)
    ensures r.Ok? ==> |r.value.coins| >= |coins|
    // the step fails only when its draw is missing or out of range, or when
    // it fires and the nested call fails
    ensures r.Err? ==>
              || |draws| == 0
              || !(0 <= draws[0] < ADD_BOUND)
              || (draws[0] == ADD_HIT && Populate(coins, 1, draws[1..]) == r)
    ensures |coins| >= 1 ==> r != Err(EmptyRemove)
  {
    match NextInt(draws, ADD_BOUND)
    case Err(e) => Err(e)
    case Ok(add) =>
      if add.value == ADD_HIT then Populate(coins, 1, add.rest)
      else Ok(Populated(coins, add.rest, [], 0))
  }

  /** The add step followed by the remove step gives `ChurnSpec`. */
  lemma AddThenRemove(coins: seq<Pos>, draws: seq<int>, added: Populated, p: Populated)
    requires AddSpec(coins, draws, added)
    requires RemoveStep(added, p)
    ensures ChurnSpec(coins, draws, p)
  {
    AddSpecShape(coins, draws, added);
    AddThenRemoveFacts(coins, draws, added, p);
    assert added.rest[0] == draws[|draws| - |p.rest| - 1];
  }

  /** The draw, queue and size facts of the add step followed by the remove step. */
  lemma AddThenRemoveFacts(coins: seq<Pos>, draws: seq<int>, added: Populated, p: Populated)
    requires AddShape(coins, draws, added)
    requires RemoveStep(added, p)
    ensures ChurnFacts(coins, draws, p)
  {
    assert p.rest == draws[|draws| - |p.rest|..];
    if draws[0] == ADD_HIT {
      if added.rest[0] == REMOVE_HIT {
        assert p.coins == (coins + p.spawned)[p.dropped..];
      }
    } else {
      assert added.rest == draws[1..];
    }
  }

  /** The add step's full guarantee implies the shape the churn relies on. */
  lemma AddSpecShape(coins: seq<Pos>, draws: seq<int>, added: Populated)
    requires AddSpec(coins, draws, added)
    ensures AddShape(coins, draws, added)
  {
    if draws[0] == ADD_HIT {
      var d := draws[1..];
      assert PopulateSpec(coins, 1, d, added);
      assert added.rest == d[|d| - |added.rest|..];
      assert added.rest == draws[|draws| - |added.rest|..];
    }
  }

  /** When the add draw misses and the remove draw fires, the call succeeds
      exactly when the list it removes from is non-empty: when coins were
      placed or there were some already. */
  lemma RemoveFiresWithoutAdd(coins: seq<Pos>, n: nat, draws: seq<int>)
    requires PlacementDraws(draws, n) && 2 * n + 2 <= |draws|
    requires 0 <= draws[2 * n] < ADD_BOUND && draws[2 * n] != ADD_HIT
    requires draws[2 * n + 1] == REMOVE_HIT
    ensures Populate(coins, n, draws).Ok? <==> (n >= 1 || |coins| >= 1)
    ensures Populate(coins, n, draws).Err? ==> Populate(coins, n, draws).error == EmptyRemove
  {
    var rest := draws[2 * n..];
    var placed := coins + PlacedFrom(draws, n);
    assert rest[0] == draws[2 * n] && rest[1..][0] == draws[2 * n + 1];
    assert Place(coins, n, draws) == Ok(Placed(placed, rest));
    assert AddStep(placed, rest) == Ok(Populated(placed, rest[1..], [], 0));
    assert |placed| >= 1 <==> (n >= 1 || |coins| >= 1);
  }

  /** When the add draw fires and the nested `populateCoins(1)` runs without
      churn of its own, `populateCoins(n)` completes: it appends the `n`
      drawn coins and the nested coin, then drops the front coin exactly when
      the outer remove draw is 2, and consumes exactly `2n + 6` draws. */
  lemma AddFiresWithoutNestedChurn(coins: seq<Pos>, n: nat, draws: seq<int>)
    requires PlacementDraws(draws, n) && 2 * n + 6 <= |draws|
    requires draws[2 * n] == ADD_HIT
    requires 0 <= draws[2 * n + 1] < COLUMNS && 0 <= draws[2 * n + 2] < ROWS
    requires 0 <= draws[2 * n + 3] < ADD_BOUND && draws[2 * n + 3] != ADD_HIT
    requires 0 <= draws[2 * n + 4] < REMOVE_BOUND && draws[2 * n + 4] != REMOVE_HIT
    requires 0 <= draws[2 * n + 5] < REMOVE_BOUND
    ensures Populate(coins, n, draws).Ok?
    ensures var added := coins + PlacedFrom(draws, n) + [Pos(draws[2 * n + 1], draws[2 * n + 2])];
            Populate(coins, n, draws).value.coins
            == if draws[2 * n + 5] == REMOVE_HIT then added[1..] else added
    ensures Populate(coins, n, draws).value.rest == draws[2 * n + 6..]
  {
    var rest := draws[2 * n..];
    assert rest[..6] == draws[2 * n..2 * n + 6];
    assert rest[6..] == draws[2 * n + 6..];
    assert Place(coins, n, draws) == Ok(Placed(coins + PlacedFrom(draws, n), rest));
    ChurnAddWithoutNestedChurn(coins + PlacedFrom(draws, n), rest);
  }

  /** The churn of the call above: the nested `populateCoins(1)` appends one
      coin and leaves its list otherwise alone, then the remove draw decides. */
  lemma ChurnAddWithoutNestedChurn(coins: seq<Pos>, draws: seq<int>)
    requires 6 <= |draws| && draws[0] == ADD_HIT
    requires 0 <= draws[1] < COLUMNS && 0 <= draws[2] < ROWS
    requires 0 <= draws[3] < ADD_BOUND && draws[3] != ADD_HIT
    requires 0 <= draws[4] < REMOVE_BOUND && draws[4] != REMOVE_HIT
    requires 0 <= draws[5] < REMOVE_BOUND
    ensures Churn(coins, draws).Ok?
    ensures var added := coins + [Pos(draws[1], draws[2])];
            Churn(coins, draws).value.coins == if draws[5] == REMOVE_HIT then added[1..] else added
    ensures Churn(coins, draws).value.rest == draws[6..]
  {
    var nested := draws[1..];
    assert PlacementDraws(nested, 1) by {
      assert AxisBound(0) == COLUMNS && AxisBound(1) == ROWS;
    }
    PopulateWithoutChurn(coins, 1, nested);
    assert PlacedFrom(nested, 1) == [Pos(draws[1], draws[2])];
    var added := coins + [Pos(draws[1], draws[2])];
    assert AddStep(coins, draws) == Ok(Populated(added, draws[5..], [Pos(draws[1], draws[2])], 0)) by {
      assert nested[4..] == draws[5..];
    }
    assert draws[5..][1..] == draws[6..];
  }

  /** When neither churn draw fires, `populateCoins(n)` appends exactly the
      `n` drawn coins and consumes exactly `2n + 2` draws. */
  lemma PopulateWithoutChurn(coins: seq<Pos>, n: nat, draws: seq<int>)
    requires PlacementDraws(draws, n) && 2 * n + 2 <= |draws|
    requires 0 <= draws[2 * n] < ADD_BOUND && draws[2 * n] != ADD_HIT
    requires 0 <= draws[2 * n + 1] < REMOVE_BOUND && draws[2 * n + 1] != REMOVE_HIT
    ensures Populate(coins, n, draws)
            == Ok(Populated(coins + PlacedFrom(draws, n), draws[2 * n + 2..], PlacedFrom(draws, n), 0))
  {
    var rest := draws[2 * n..];
    assert rest[0] == draws[2 * n] && rest[1] == draws[2 * n + 1];
    assert rest[1..][1..] == draws[2 * n + 2..];
    assert Place(coins, n, draws) == Ok(Placed(coins + PlacedFrom(draws, n), rest));
    assert AddStep(coins + PlacedFrom(draws, n), rest)
           == Ok(Populated(coins + PlacedFrom(draws, n), rest[1..], [], 0));
    assert PlacedFrom(draws, n) + [] == PlacedFrom(draws, n);
  }
}
