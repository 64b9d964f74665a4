/**
 * Whole races played out on the model, as the program's integration tests
 * play them: two funded players join, the first boosts across a short track
 * and claims the pool.
 */
module Scenarios {
  import opened Common
  import opened RaceTypes
  import opened Escrow
  import opened Dice
  import opened RaceProgram

  /**
   * On a five-long track two boosts (3 + 3) finish the race for the first
   * player, who is then the winner and the only one who can claim; the claim
   * pays out both entry fees and empties the pool.
   */
  lemma BoostToVictory(authority: Pubkey, clock: Clock, entryFee: U64,
                       lamports: Balances, gameAddress: Pubkey, p1: Pubkey, p2: Pubkey)
    requires p1 != p2 && p1 != gameAddress && p2 != gameAddress
    requires entryFee <= BalanceOf(lamports, p1) && entryFee <= BalanceOf(lamports, p2)
    requires 0 < entryFee && 2 * entryFee < U64_LIMIT
    ensures
      var g0 := InitializeGame(authority, clock, entryFee, 5);
      var (g, b) := Run(g0, lamports, gameAddress, [Join(p1), Join(p2), Boost(p1), Boost(p1)]);
      && g.state == Finished && g.winner == Some(p1) && |g.players| == 2
      && g.players[0].position == 6 && g.players[0].boostsRemaining == 1 && g.players[0].finished
      && g.players[1] == NewPlayer(p2)
      && g.prizePool == 2 * entryFee
      && ClaimPrize(g, b, gameAddress, p2) == Err(Rejected(NotWinner))
      && ClaimPrize(g, b, gameAddress, p1).Ok?
      && BalanceOf(ClaimPrize(g, b, gameAddress, p1).value.1, p1) == BalanceOf(lamports, p1) + entryFee
  {
    var g0 := InitializeGame(authority, clock, entryFee, 5);
    var (g1, b1) := JoinRace(g0, lamports, gameAddress, p1).value;
    assert g1.players == [NewPlayer(p1)];
    assert !InRoster(g1.players, p2);
    var (g2, b2) := JoinRace(g1, b1, gameAddress, p2).value;
    assert g2.players == [NewPlayer(p1), NewPlayer(p2)];
    assert IndexOf(g2.players, p1) == Some(0);
    var g3 := UseBoost(g2, p1).value;
    assert g3.players[0].position == 3 && g3.state == InProgress;
    assert IndexOf(g3.players, p1) == Some(0);
    var g4 := UseBoost(g3, p1).value;
    assert g4.prizePool == 2 * entryFee <= BalanceOf(b2, gameAddress);
    assert g4.winner == Some(p1) && g4.state == Finished;
    var actions := [Join(p1), Join(p2), Boost(p1), Boost(p1)];
    assert Run(g0, lamports, gameAddress, actions) == Run(g1, b1, gameAddress, actions[1..]);
    assert Run(g1, b1, gameAddress, actions[1..]) == Run(g2, b2, gameAddress, actions[2..]);
    assert Run(g2, b2, gameAddress, actions[2..]) == Run(g3, b2, gameAddress, actions[3..]);
    assert Run(g3, b2, gameAddress, actions[3..]) == (g4, b2);
  }

  /** A player who has not joined cannot move, and a third player cannot join a started race. */
  lemma LateComers(authority: Pubkey, clock: Clock, entryFee: U64, trackLength: U8,
                   lamports: Balances, gameAddress: Pubkey, p1: Pubkey, p2: Pubkey, p3: Pubkey)
    requires p1 != p2 && p3 != p1 && p3 != p2 && p1 != gameAddress && p2 != gameAddress
    requires entryFee <= BalanceOf(lamports, p1) && entryFee <= BalanceOf(lamports, p2)
    requires 2 * entryFee < U64_LIMIT
    ensures
      var g0 := InitializeGame(authority, clock, entryFee, trackLength);
      var (g, b) := Run(g0, lamports, gameAddress, [Join(p1), Join(p2)]);
      && g.state == InProgress
      && JoinRace(g, b, gameAddress, p3) == Err(Rejected(GameNotJoinable))
      && RollAndMove(g, p3, clock) == Err(Rejected(PlayerNotFound))
      && UseBoost(g, p3) == Err(Rejected(PlayerNotFound))
  {
    var g0 := InitializeGame(authority, clock, entryFee, trackLength);
    var (g1, b1) := JoinRace(g0, lamports, gameAddress, p1).value;
    assert g1.players == [NewPlayer(p1)];
    assert !InRoster(g1.players, p2);
    var (g2, b2) := JoinRace(g1, b1, gameAddress, p2).value;
    assert g2.players == [NewPlayer(p1), NewPlayer(p2)];
    assert !InRoster(g2.players, p3);
    var actions := [Join(p1), Join(p2)];
    assert Run(g0, lamports, gameAddress, actions) == Run(g1, b1, gameAddress, actions[1..]);
    assert Run(g1, b1, gameAddress, actions[1..]) == (g2, b2);
  }
}
