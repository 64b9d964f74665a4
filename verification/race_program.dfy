/**
 * The five instructions of the race program as pure functions.
 *
 * Each instruction evaluates all of its guards before it writes anything, and
 * a failure aborts the whole transaction, so an instruction maps the loaded
 * game (and the lamports of the accounts it touches) either to the new game
 * and lamports or to a failure; on a failure the caller keeps the old values.
 */
module RaceProgram {
  import opened Common
  import opened RaceTypes
  import opened Escrow
  import opened Dice

  /** A signed instruction naming its signer. */
  datatype Action =
    | Join(caller: Pubkey)
    | Roll(caller: Pubkey, clock: Clock)
    | Boost(caller: Pubkey)
    | Claim(caller: Pubkey)

  /** `initialize_game`: a fresh game in the joining phase; the clock slot becomes its id. */
  function InitializeGame(authority: Pubkey, clock: Clock, entryFee: U64, trackLength: U8): (g: Game)
    ensures g.state == WaitingForPlayers && g.players == [] && g.prizePool == 0 && g.winner == None
    ensures g.entryFee == entryFee && g.trackLength == trackLength
    ensures g.authority == authority && g.gameId == clock.slot
  {
    Game(authority, clock.slot, WaitingForPlayers, entryFee, trackLength, [], 0, None)
  }

  /** The player entry `join_race` appends. */
  function NewPlayer(key: Pubkey): Player
  {
    Player(key, 0, BOOSTS_PER_PLAYER, false)
  }

  /**
   * `join_race`: the caller pays the entry fee into the game account and is
   * appended to the roster; reaching two players starts the race.
   */
  function JoinRace(g: Game, lamports: Balances, gameAddress: Pubkey, caller: Pubkey): (r: Result<(Game, Balances)>)
    ensures g.state != WaitingForPlayers ==> r == Err(Rejected(GameNotJoinable))
    ensures g.state == WaitingForPlayers && |g.players| >= MAX_PLAYERS ==> r == Err(Rejected(GameFull))
    ensures g.state == WaitingForPlayers && |g.players| < MAX_PLAYERS && InRoster(g.players, caller) ==>
      r == Err(Rejected(AlreadyJoined))
    ensures r.Ok? <==>
      && g.state == WaitingForPlayers && |g.players| < MAX_PLAYERS && !InRoster(g.players, caller)
      && caller != gameAddress && g.entryFee <= BalanceOf(lamports, caller)
      && g.prizePool + g.entryFee < U64_LIMIT
    ensures r.Err? && r.failure == InsufficientFunds ==> BalanceOf(lamports, caller) < g.entryFee
    ensures r.Ok? ==>
      var (g', b') := r.value;
      && g'.players == g.players + [NewPlayer(caller)]
      && g'.prizePool == g.prizePool + g.entryFee
      && g'.state == (if |g'.players| >= 2 then InProgress else WaitingForPlayers)
      && g'.authority == g.authority && g'.gameId == g.gameId && g'.entryFee == g.entryFee
      && g'.trackLength == g.trackLength && g'.winner == g.winner
      && BalanceOf(b', caller) + g.entryFee == BalanceOf(lamports, caller)
      && BalanceOf(b', gameAddress) == BalanceOf(lamports, gameAddress) + g.entryFee
      && (forall k :: k != caller && k != gameAddress ==> BalanceOf(b', k) == BalanceOf(lamports, k))
  {
    if g.state != WaitingForPlayers then Err(Rejected(GameNotJoinable))
    else if |g.players| >= MAX_PLAYERS then Err(Rejected(GameFull))
    else if IndexOf(g.players, caller).Some? then Err(Rejected(AlreadyJoined))
    // The system program refuses to debit an account that carries data,
    // and the game account carries the game record.
    else if caller == gameAddress then Err(InvalidArgument)
    else
      match Transfer(lamports, caller, gameAddress, g.entryFee)
      case None => Err(InsufficientFunds)
      case Some(b') =>
        match CheckedAddU64(g.prizePool, g.entryFee)
        case None => Err(ArithmeticOverflow)
        case Some(pool) =>
          var players := g.players + [NewPlayer(caller)];
          var state := if |players| >= 2 then InProgress else g.state;
          Ok((g.(players := players, prizePool := pool, state := state), b'))
  }

  /**
   * The effect of a successful move of player `i` by `delta`, paying `cost`
   * boosts: only that player's entry changes, and reaching the track length
   * finishes the player and the race with the mover as winner.
   */
  ghost predicate MovedBy(g: Game, g': Game, i: nat, delta: int, cost: int)
    requires i < |g.players|
  {
    var p := g.players[i];
    var won := p.position + delta >= g.trackLength;
    && |g'.players| == |g.players|
    && g'.players[i].pubkey == p.pubkey
    && g'.players[i].position == p.position + delta
    && g'.players[i].boostsRemaining == p.boostsRemaining - cost
    && g'.players[i].finished == won
    && (forall j :: 0 <= j < |g.players| && j != i ==> g'.players[j] == g.players[j])
    && g'.authority == g.authority && g'.gameId == g.gameId && g'.entryFee == g.entryFee
    && g'.trackLength == g.trackLength && g'.prizePool == g.prizePool
    && (won ==> g'.state == Finished && g'.winner == Some(p.pubkey))
    && (!won ==> g'.state == g.state && g'.winner == g.winner)
  }

  /**
   * The shared tail of `roll_and_move` and `use_boost`: add `delta` to the
   * player's u8 position (a carry out of 8 bits panics), then test for the
   * finish line.
   */
  function Advance(g: Game, i: nat, delta: U8, cost: U8): (r: Result<Game>)
    requires i < |g.players| && !g.players[i].finished && cost <= g.players[i].boostsRemaining
    ensures r.Err? <==> g.players[i].position + delta >= U8_LIMIT
    ensures r.Err? ==> r.failure == ArithmeticOverflow
    ensures r.Ok? ==> MovedBy(g, r.value, i, delta, cost)
  {
    var p := g.players[i];
    match CheckedAddU8(p.position, delta)
    case None => Err(ArithmeticOverflow)
    case Some(pos) =>
      var won := pos >= g.trackLength;
      var p' := p.(position := pos, boostsRemaining := p.boostsRemaining - cost, finished := p.finished || won);
      var g' := g.(players := g.players[i := p']);
      Ok(if won then g'.(state := Finished, winner := Some(p.pubkey)) else g')
  }

  /** The dice value `roll_and_move` draws for `caller` at `clock`. */
  function DiceFor(caller: Pubkey, clock: Clock): (r: U8)
    ensures 1 <= r <= 6
  {
    Dice.Roll(Seed(clock, caller[0]))
  }

  /** `roll_and_move`: the caller advances by one dice roll. */
  function RollAndMove(g: Game, caller: Pubkey, clock: Clock): (r: Result<Game>)
    ensures r == Err(Rejected(GameNotInProgress)) <==> g.state != InProgress
    ensures r == Err(Rejected(PlayerNotFound)) <==> g.state == InProgress && !InRoster(g.players, caller)
    ensures r == Err(Rejected(PlayerAlreadyFinished)) <==>
      g.state == InProgress && InRoster(g.players, caller) && g.players[IndexOf(g.players, caller).value].finished
    ensures r == Err(ArithmeticOverflow) <==>
      && g.state == InProgress && InRoster(g.players, caller)
      && var p := g.players[IndexOf(g.players, caller).value];
      !p.finished && p.position + DiceFor(caller, clock) >= U8_LIMIT
    ensures r.Ok? <==>
      && g.state == InProgress && InRoster(g.players, caller)
      && var p := g.players[IndexOf(g.players, caller).value];
      !p.finished && p.position + DiceFor(caller, clock) < U8_LIMIT
    ensures r.Ok? ==>
      && g.state == InProgress && InRoster(g.players, caller)
      && MovedBy(g, r.value, IndexOf(g.players, caller).value, DiceFor(caller, clock), 0)
  {
    if g.state != InProgress then Err(Rejected(GameNotInProgress))
    else
      match IndexOf(g.players, caller)
      case None => Err(Rejected(PlayerNotFound))
      case Some(i) =>
        if g.players[i].finished then Err(Rejected(PlayerAlreadyFinished))
        else Advance(g, i, DiceFor(caller, clock), 0)
  }

  /** `use_boost`: the caller spends one boost to advance by `BOOST_AMOUNT`. */
  function UseBoost(g: Game, caller: Pubkey): (r: Result<Game>)
    ensures r == Err(Rejected(GameNotInProgress)) <==> g.state != InProgress
    ensures r == Err(Rejected(PlayerNotFound)) <==> g.state == InProgress && !InRoster(g.players, caller)
    ensures r == Err(Rejected(PlayerAlreadyFinished)) <==>
      g.state == InProgress && InRoster(g.players, caller) && g.players[IndexOf(g.players, caller).value].finished
    ensures r == Err(Rejected(NoBoostsRemaining)) <==>
      && g.state == InProgress && InRoster(g.players, caller)
      && var p := g.players[IndexOf(g.players, caller).value];
      !p.finished && p.boostsRemaining == 0
    ensures r == Err(ArithmeticOverflow) <==>
      && g.state == InProgress && InRoster(g.players, caller)
      && var p := g.players[IndexOf(g.players, caller).value];
      !p.finished && p.boostsRemaining > 0 && p.position + BOOST_AMOUNT >= U8_LIMIT
    ensures r.Ok? <==>
      && g.state == InProgress && InRoster(g.players, caller)
      && var p := g.players[IndexOf(g.players, caller).value];
      !p.finished && p.boostsRemaining > 0 && p.position + BOOST_AMOUNT < U8_LIMIT
    ensures r.Ok? ==>
      && g.state == InProgress && InRoster(g.players, caller)
      && MovedBy(g, r.value, IndexOf(g.players, caller).value, BOOST_AMOUNT, 1)
  {
    if g.state != InProgress then Err(Rejected(GameNotInProgress))
    else
      match IndexOf(g.players, caller)
      case None => Err(Rejected(PlayerNotFound))
      case Some(i) =>
        if g.players[i].finished then Err(Rejected(PlayerAlreadyFinished))
        else if g.players[i].boostsRemaining == 0 then Err(Rejected(NoBoostsRemaining))
        else Advance(g, i, BOOST_AMOUNT, 1)
  }

  /**
   * `claim_prize`: the winner of a finished race takes the whole prize pool
   * out of the game account. Debiting more lamports than the game account
   * holds would underflow its u64 balance and panic.
   */
  function ClaimPrize(g: Game, lamports: Balances, gameAddress: Pubkey, caller: Pubkey): (r: Result<(Game, Balances)>)
    ensures g.state != Finished ==> r == Err(Rejected(GameNotFinished))
    ensures g.state == Finished && g.winner != Some(caller) ==> r == Err(Rejected(NotWinner))
    ensures g.state == Finished && g.winner == Some(caller) && g.prizePool == 0 ==> r == Err(Rejected(NoPrizeToClaimX))
    ensures r.Ok? <==>
      g.state == Finished && g.winner == Some(caller) && 0 < g.prizePool <= BalanceOf(lamports, gameAddress)
    ensures r.Ok? ==>
      var (g', b') := r.value;
      && g' == g.(prizePool := 0)
      && (caller != gameAddress ==>
           && BalanceOf(b', gameAddress) + g.prizePool == BalanceOf(lamports, gameAddress)
           && BalanceOf(b', caller) == BalanceOf(lamports, caller) + g.prizePool)
      && (forall k :: k != caller && k != gameAddress ==> BalanceOf(b', k) == BalanceOf(lamports, k))
  {
    if g.state != Finished then Err(Rejected(GameNotFinished))
    else if g.winner != Some(caller) then Err(Rejected(NotWinner))
    else if g.prizePool == 0 then Err(Rejected(NoPrizeToClaimX))
    else
      match Transfer(lamports, gameAddress, caller, g.prizePool)
      case None => Err(ArithmeticOverflow)
      case Some(b') => Ok((g.(prizePool := 0), b'))
  }

  /** One instruction against the game; dice and boosts leave lamports alone. */
  function Step(g: Game, lamports: Balances, gameAddress: Pubkey, a: Action): (r: Result<(Game, Balances)>)
    ensures (a.Roll? || a.Boost?) && r.Ok? ==> r.value.1 == lamports
    ensures a.Roll? ==> (r.Ok? <==> RollAndMove(g, a.caller, a.clock).Ok?)
    ensures a.Boost? ==> (r.Ok? <==> UseBoost(g, a.caller).Ok?)
  {
    match a
    case Join(caller) => JoinRace(g, lamports, gameAddress, caller)
    case Roll(caller, clock) =>
      var g' :- RollAndMove(g, caller, clock);
      Ok((g', lamports))
    case Boost(caller) =>
      var g' :- UseBoost(g, caller);
      Ok((g', lamports))
    case Claim(caller) => ClaimPrize(g, lamports, gameAddress, caller)
  }

  /** The ledger after one transaction: its effect if it succeeds, nothing if it fails. */
  function Commit(g: Game, lamports: Balances, gameAddress: Pubkey, a: Action): (c: (Game, Balances))
    ensures Step(g, lamports, gameAddress, a).Err? ==> c == (g, lamports)
    ensures Step(g, lamports, gameAddress, a).Ok? ==> c == Step(g, lamports, gameAddress, a).value
  {
    match Step(g, lamports, gameAddress, a)
    case Ok(next) => next
    case Err(_) => (g, lamports)
  }

  /** A serialized sequence of transactions, each committed or dropped. */
  function Run(g: Game, lamports: Balances, gameAddress: Pubkey, actions: seq<Action>): (Game, Balances)
    decreases |actions|
  {
    if |actions| == 0 then (g, lamports)
    else
      var (g', b') := Commit(g, lamports, gameAddress, actions[0]);
      Run(g', b', gameAddress, actions[1..])
  }

  /** Running two histories one after the other is running their concatenation. */
  lemma {:induction false} RunAppend(g: Game, lamports: Balances, gameAddress: Pubkey, xs: seq<Action>, ys: seq<Action>)
    ensures
      var (g', b') := Run(g, lamports, gameAddress, xs);
      Run(g, lamports, gameAddress, xs + ys) == Run(g', b', gameAddress, ys)
    decreases |xs|
  {
    if |xs| == 0 {
      assert xs + ys == ys;
    } else {
      var (g1, b1) := Commit(g, lamports, gameAddress, xs[0]);
      assert (xs + ys)[0] == xs[0];
      assert (xs + ys)[1..] == xs[1..] + ys;
      RunAppend(g1, b1, gameAddress, xs[1..], ys);
    }
  }

  /** A history whose every transaction fails leaves the game and the balances as they were. */
  lemma {:induction false} FailedRunChangesNothing(g: Game, lamports: Balances, gameAddress: Pubkey, actions: seq<Action>)
    requires forall i :: 0 <= i < |actions| ==> Step(g, lamports, gameAddress, actions[i]).Err?
    ensures Run(g, lamports, gameAddress, actions) == (g, lamports)
    decreases |actions|
  {
    if |actions| > 0 {
      assert forall i :: 0 <= i < |actions[1..]| ==> actions[1..][i] == actions[i + 1];
      FailedRunChangesNothing(g, lamports, gameAddress, actions[1..]);
    }
  }
}
