/**
 * What holds of every game the race program can produce, and how a game may
 * change from one committed transaction to the next.
 */
module RaceInvariants {
  import opened Common
  import opened RaceTypes
  import opened Escrow
  import opened Dice
  import opened RaceProgram

  /** Per-player bounds: boosts never exceed the initial three, and `finished` means past the line. */
  predicate PlayerOk(p: Player, trackLength: U8)
  {
    && p.boostsRemaining <= BOOSTS_PER_PLAYER
    && (p.finished ==> p.position >= trackLength)
    && (!p.finished ==> p.position < trackLength || p.position == 0)
  }

  /**
   * The game invariant:
   * - the second join starts the race, so the roster never exceeds two;
   * - keys are unique;
   * - the prize pool is one entry fee per player until the claim zeroes it;
   * - there is a winner exactly when the race is finished, and the finished
   *   players are exactly the winner.
   */
  ghost predicate GameInv(g: Game)
  {
    && |g.players| <= 2
    && (g.state == WaitingForPlayers <==> |g.players| < 2)
    && UniqueKeys(g.players)
    && (g.prizePool == g.entryFee * |g.players| || (g.state == Finished && g.prizePool == 0))
    && (g.winner.Some? <==> g.state == Finished)
    && (g.winner.Some? ==> InRoster(g.players, g.winner.value))
    && (forall i :: 0 <= i < |g.players| ==> (g.players[i].finished <==> g.winner == Some(g.players[i].pubkey)))
    && (forall i :: 0 <= i < |g.players| ==> PlayerOk(g.players[i], g.trackLength))
  }

  /** The game account holds at least the prize pool, and no player is the game account itself. */
  ghost predicate EscrowInv(g: Game, lamports: Balances, gameAddress: Pubkey)
  {
    && g.prizePool <= BalanceOf(lamports, gameAddress)
    && (forall i :: 0 <= i < |g.players| ==> g.players[i].pubkey != gameAddress)
  }

  ghost predicate Inv(g: Game, lamports: Balances, gameAddress: Pubkey)
  {
    GameInv(g) && EscrowInv(g, lamports, gameAddress)
  }

  /**
   * How a game may evolve: the immutable parameters stay, the phase never
   * regresses, a winner is never replaced, the roster only grows at its end,
   * positions never decrease, boosts never increase, a finished player stays
   * finished, and the pool only drops, to zero, in a finished race, after
   * which it stays empty.
   */
  ghost predicate Evolves(g: Game, g': Game)
  {
    && g'.authority == g.authority && g'.gameId == g.gameId
    && g'.entryFee == g.entryFee && g'.trackLength == g.trackLength
    && Rank(g.state) <= Rank(g'.state)
    && (g.winner.Some? ==> g'.winner == g.winner)
    && |g.players| <= |g'.players|
    && (forall i :: 0 <= i < |g.players| ==>
          && g'.players[i].pubkey == g.players[i].pubkey
          && g.players[i].position <= g'.players[i].position
          && g'.players[i].boostsRemaining <= g.players[i].boostsRemaining
          && (g.players[i].finished ==> g'.players[i].finished))
    && (g'.prizePool < g.prizePool ==> g'.state == Finished && g'.prizePool == 0)
    && (g.state == Finished && g.prizePool == 0 ==> g'.prizePool == 0)
  }

  lemma EvolvesTransitive(g1: Game, g2: Game, g3: Game)
    requires Evolves(g1, g2) && Evolves(g2, g3)
    ensures Evolves(g1, g3)
  {
  }

  /** A new game satisfies the invariant whatever its parameters, a zero-length track included. */
  lemma InitEstablishesInv(authority: Pubkey, clock: Clock, entryFee: U64, trackLength: U8,
                           lamports: Balances, gameAddress: Pubkey)
    ensures Inv(InitializeGame(authority, clock, entryFee, trackLength), lamports, gameAddress)
  {
  }

  lemma JoinPreservesInv(g: Game, lamports: Balances, gameAddress: Pubkey, caller: Pubkey)
    requires Inv(g, lamports, gameAddress)
    requires JoinRace(g, lamports, gameAddress, caller).Ok?
    ensures Inv(JoinRace(g, lamports, gameAddress, caller).value.0, JoinRace(g, lamports, gameAddress, caller).value.1, gameAddress)
    ensures Evolves(g, JoinRace(g, lamports, gameAddress, caller).value.0)
  {
    var (g', b') := JoinRace(g, lamports, gameAddress, caller).value;
    var n := |g.players|;
    assert g.winner == None;
    forall i | 0 <= i < n
      ensures !g.players[i].finished
    {
    }
    assert g'.players[n] == NewPlayer(caller);
    forall i, j | 0 <= i < j < |g'.players|
      ensures g'.players[i].pubkey != g'.players[j].pubkey
    {
      if j == n {
        assert g'.players[i] == g.players[i];
      }
    }
    assert g'.prizePool == g.entryFee * (n + 1);
  }

  /** A successful move (dice or boost) from a valid game keeps the game valid. */
  lemma MovePreservesGameInv(g: Game, g': Game, i: nat, delta: U8, cost: U8)
    requires GameInv(g) && g.state == InProgress
    requires i < |g.players| && !g.players[i].finished && cost <= g.players[i].boostsRemaining
    requires MovedBy(g, g', i, delta, cost)
    ensures GameInv(g') && Evolves(g, g')
  {
    var key := g.players[i].pubkey;
    assert g.winner == None;
    forall j | 0 <= j < |g'.players|
      ensures g'.players[j].finished <==> g'.winner == Some(g'.players[j].pubkey)
    {
      if j != i {
        assert g'.players[j] == g.players[j];
        assert g.players[j].pubkey != key;
      }
    }
    forall a, b | 0 <= a < b < |g'.players|
      ensures g'.players[a].pubkey != g'.players[b].pubkey
    {
      assert g'.players[a].pubkey == g.players[a].pubkey;
      assert g'.players[b].pubkey == g.players[b].pubkey;
    }
    if g'.winner.Some? {
      assert g'.players[i].pubkey == g'.winner.value;
    }
    forall j | 0 <= j < |g'.players|
      ensures PlayerOk(g'.players[j], g'.trackLength)
    {
      if j != i {
        assert g'.players[j] == g.players[j];
      }
    }
  }

  lemma RollPreservesInv(g: Game, lamports: Balances, gameAddress: Pubkey, caller: Pubkey, clock: Clock)
    requires Inv(g, lamports, gameAddress)
    requires RollAndMove(g, caller, clock).Ok?
    ensures Inv(RollAndMove(g, caller, clock).value, lamports, gameAddress)
    ensures Evolves(g, RollAndMove(g, caller, clock).value)
  {
    var i := IndexOf(g.players, caller).value;
    var g' := RollAndMove(g, caller, clock).value;
    MovePreservesGameInv(g, g', i, DiceFor(caller, clock), 0);
  }

  lemma BoostPreservesInv(g: Game, lamports: Balances, gameAddress: Pubkey, caller: Pubkey)
    requires Inv(g, lamports, gameAddress)
    requires UseBoost(g, caller).Ok?
    ensures Inv(UseBoost(g, caller).value, lamports, gameAddress)
    ensures Evolves(g, UseBoost(g, caller).value)
  {
    var i := IndexOf(g.players, caller).value;
    var g' := UseBoost(g, caller).value;
    MovePreservesGameInv(g, g', i, BOOST_AMOUNT, 1);
  }

  lemma ClaimPreservesInv(g: Game, lamports: Balances, gameAddress: Pubkey, caller: Pubkey)
    requires Inv(g, lamports, gameAddress)
    requires ClaimPrize(g, lamports, gameAddress, caller).Ok?
    ensures Inv(ClaimPrize(g, lamports, gameAddress, caller).value.0, ClaimPrize(g, lamports, gameAddress, caller).value.1, gameAddress)
    ensures Evolves(g, ClaimPrize(g, lamports, gameAddress, caller).value.0)
  {
    var k :| 0 <= k < |g.players| && g.players[k].pubkey == caller;
    assert caller != gameAddress;
  }

  /** Every committed transaction keeps the invariant and is an allowed evolution. */
  lemma StepPreservesInv(g: Game, lamports: Balances, gameAddress: Pubkey, a: Action)
    requires Inv(g, lamports, gameAddress)
    ensures Inv(Commit(g, lamports, gameAddress, a).0, Commit(g, lamports, gameAddress, a).1, gameAddress)
    ensures Evolves(g, Commit(g, lamports, gameAddress, a).0)
  {
    if Step(g, lamports, gameAddress, a).Ok? {
      match a
      case Join(caller) => JoinPreservesInv(g, lamports, gameAddress, caller);
      case Roll(caller, clock) => RollPreservesInv(g, lamports, gameAddress, caller, clock);
      case Boost(caller) => BoostPreservesInv(g, lamports, gameAddress, caller);
      case Claim(caller) => ClaimPreservesInv(g, lamports, gameAddress, caller);
    }
  }

  /** Any serialized history of transactions keeps the invariant and only evolves the game. */
  lemma {:induction false} RunPreservesInv(g: Game, lamports: Balances, gameAddress: Pubkey, actions: seq<Action>)
    requires Inv(g, lamports, gameAddress)
    ensures Inv(Run(g, lamports, gameAddress, actions).0, Run(g, lamports, gameAddress, actions).1, gameAddress)
    ensures Evolves(g, Run(g, lamports, gameAddress, actions).0)
    decreases |actions|
  {
    if |actions| > 0 {
      var (g', b') := Commit(g, lamports, gameAddress, actions[0]);
      StepPreservesInv(g, lamports, gameAddress, actions[0]);
      RunPreservesInv(g', b', gameAddress, actions[1..]);
      EvolvesTransitive(g, g', Run(g', b', gameAddress, actions[1..]).0);
    }
  }

  /**
   * Every game reachable from `initialize_game` has at most two players, one
   * entry fee per player in the pool until the claim, and a winner exactly
   * when finished.
   */
  lemma ReachableGames(authority: Pubkey, clock: Clock, entryFee: U64, trackLength: U8,
                       lamports: Balances, gameAddress: Pubkey, actions: seq<Action>)
    ensures
      var g := Run(InitializeGame(authority, clock, entryFee, trackLength), lamports, gameAddress, actions).0;
      && |g.players| <= 2
      && (g.prizePool == entryFee * |g.players| || (g.state == Finished && g.prizePool == 0))
      && (g.winner.Some? <==> g.state == Finished)
      && g.entryFee == entryFee && g.trackLength == trackLength
  {
    var g0 := InitializeGame(authority, clock, entryFee, trackLength);
    InitEstablishesInv(authority, clock, entryFee, trackLength, lamports, gameAddress);
    RunPreservesInv(g0, lamports, gameAddress, actions);
  }

  /** `GameFull` is dead code: a valid game that accepts joins has fewer than two players. */
  lemma GameFullUnreachable(g: Game, lamports: Balances, gameAddress: Pubkey, caller: Pubkey)
    requires GameInv(g)
    ensures JoinRace(g, lamports, gameAddress, caller) != Err(Rejected(GameFull))
  {
  }

  /** `PlayerAlreadyFinished` is dead code: while the race is in progress nobody has finished. */
  lemma AlreadyFinishedUnreachable(g: Game, caller: Pubkey, clock: Clock)
    requires GameInv(g)
    ensures RollAndMove(g, caller, clock) != Err(Rejected(PlayerAlreadyFinished))
    ensures UseBoost(g, caller) != Err(Rejected(PlayerAlreadyFinished))
  {
    if g.state == InProgress && InRoster(g.players, caller) {
      var i := IndexOf(g.players, caller).value;
      assert g.winner == None;
      assert !g.players[i].finished;
    }
  }

  /** The game account always covers the pool, so the claim's debit never underflows. */
  lemma ClaimNeverUnderflows(g: Game, lamports: Balances, gameAddress: Pubkey, caller: Pubkey)
    requires Inv(g, lamports, gameAddress)
    ensures ClaimPrize(g, lamports, gameAddress, caller) != Err(ArithmeticOverflow)
  {
  }

  /**
   * With a track of at most 250, an unfinished player stands below 250, so
   * adding at most 6 never leaves the u8 range.
   */
  lemma NoPositionOverflowOnShortTracks(g: Game, caller: Pubkey, clock: Clock)
    requires GameInv(g) && g.trackLength <= 250
    ensures RollAndMove(g, caller, clock) != Err(ArithmeticOverflow)
    ensures UseBoost(g, caller) != Err(ArithmeticOverflow)
  {
    if g.state == InProgress && InRoster(g.players, caller) {
      var i := IndexOf(g.players, caller).value;
      assert PlayerOk(g.players[i], g.trackLength);
    }
  }

  /**
   * On a 255-long track the u8 position can overflow: a valid game in which
   * a boost from 253 would cross the line aborts instead of finishing the race.
   */
  lemma PositionOverflowOnLongTrack(a: Pubkey, b: Pubkey)
    requires a != b
    ensures
      var g := Game(a, 0, InProgress, 0, 255, [Player(a, 253, 1, false), Player(b, 0, 3, false)], 0, None);
      && GameInv(g)
      && 253 + BOOST_AMOUNT >= g.trackLength
      && UseBoost(g, a) == Err(ArithmeticOverflow)
  {
    var g := Game(a, 0, InProgress, 0, 255, [Player(a, 253, 1, false), Player(b, 0, 3, false)], 0, None);
    assert IndexOf(g.players, a) == Some(0);
  }

  /** A committed transaction creates and destroys no lamports, and the game account's surplus over the pool stays put. */
  lemma StepConservesLamports(g: Game, lamports: Balances, gameAddress: Pubkey, a: Action)
    requires Inv(g, lamports, gameAddress)
    ensures
      var (g', b') := Commit(g, lamports, gameAddress, a);
      && Total(b') == Total(lamports)
      && BalanceOf(b', gameAddress) - g'.prizePool == BalanceOf(lamports, gameAddress) - g.prizePool
  {
    if Step(g, lamports, gameAddress, a).Ok? {
      match a
      case Join(caller) =>
        TransferConserves(lamports, caller, gameAddress, g.entryFee);
      case Roll(_, _) =>
      case Boost(_) =>
      case Claim(caller) =>
        var k :| 0 <= k < |g.players| && g.players[k].pubkey == caller;
        TransferConserves(lamports, gameAddress, caller, g.prizePool);
    }
  }

  /** After a successful claim the pool is empty and the same claim fails. */
  lemma ClaimOnlyOnce(g: Game, lamports: Balances, gameAddress: Pubkey, caller: Pubkey)
    requires ClaimPrize(g, lamports, gameAddress, caller).Ok?
    ensures
      var (g', b') := ClaimPrize(g, lamports, gameAddress, caller).value;
      && g'.prizePool == 0 && g'.winner == g.winner
      && ClaimPrize(g', b', gameAddress, caller) == Err(Rejected(NoPrizeToClaimX))
  {
  }

  /** Once the race is finished no move is accepted, so the winner is settled. */
  lemma FinishedRaceIsFrozen(g: Game, caller: Pubkey, clock: Clock)
    requires g.state == Finished
    ensures RollAndMove(g, caller, clock) == Err(Rejected(GameNotInProgress))
    ensures UseBoost(g, caller) == Err(Rejected(GameNotInProgress))
  {
  }
}
