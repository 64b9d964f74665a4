/**
 * The predicates the game hook computes from the fetched game and the
 * connected wallet, and how they line up with the guards of the on-chain
 * instructions they enable.
 */
module ClientGuards {
  import opened Common
  import opened RaceTypes
  import opened Escrow
  import opened Dice
  import opened RaceProgram
  import opened RaceInvariants
  import opened ClientTypes

  /** The first player whose key is `key`, as `Array.prototype.find`. */
  function FindPlayer(players: seq<ClientPlayer>, key: Pubkey): (r: Option<ClientPlayer>)
    ensures r.None? <==> forall i :: 0 <= i < |players| ==> players[i].pubkey != key
    ensures r.Some? ==>
      exists i :: 0 <= i < |players| && players[i] == r.value && r.value.pubkey == key
                  && forall j :: 0 <= j < i ==> players[j].pubkey != key
  {
    if |players| == 0 then None
    else if players[0].pubkey == key then Some(players[0])
    else
      var r := FindPlayer(players[1..], key);
      assert forall i :: 1 <= i < |players| ==> players[i] == players[1..][i - 1];
      if r.Some? then
        var i :| 0 <= i < |players[1..]| && players[1..][i] == r.value && r.value.pubkey == key
          && forall j :: 0 <= j < i ==> players[1..][j].pubkey != key;
        assert players[i + 1] == r.value;
        r
      else r
  }

  /** `currentPlayer`: the wallet's roster entry; null without a game, a wallet or a match. */
  function CurrentPlayer(gs: Option<ClientGame>, wallet: Option<Pubkey>): (r: Option<ClientPlayer>)
    ensures gs.None? || wallet.None? ==> r.None?
    ensures gs.Some? && wallet.Some? ==> r == FindPlayer(gs.value.players, wallet.value)
    ensures r.Some? ==> wallet == Some(r.value.pubkey)
  {
    if gs.None? || wallet.None? then None else FindPlayer(gs.value.players, wallet.value)
  }

  /** `isPlayerInGame`: some roster entry carries the wallet's key. */
  function IsPlayerInGame(gs: Option<ClientGame>, wallet: Option<Pubkey>): (r: bool)
    ensures r <==>
      && gs.Some? && wallet.Some?
      && exists i :: 0 <= i < |gs.value.players| && gs.value.players[i].pubkey == wallet.value
  {
    CurrentPlayer(gs, wallet).Some?
  }

  /** `canJoin`; `maxPlayers` is the deployment's `MAX_PLAYERS` setting. */
  function CanJoin(gs: Option<ClientGame>, wallet: Option<Pubkey>, maxPlayers: int): (r: bool)
    ensures r <==>
      && gs.Some? && gs.value.state == WAITING_LABEL
      && (wallet.None? || forall i :: 0 <= i < |gs.value.players| ==> gs.value.players[i].pubkey != wallet.value)
      && |gs.value.players| < maxPlayers
  {
    gs.Some? && gs.value.state == WAITING_LABEL && !IsPlayerInGame(gs, wallet) && |gs.value.players| < maxPlayers
  }

  /** `canPlay`: the race is running and the wallet's player has not finished. */
  function CanPlay(gs: Option<ClientGame>, wallet: Option<Pubkey>): (r: bool)
    ensures r <==>
      && gs.Some? && wallet.Some? && gs.value.state == IN_PROGRESS_LABEL
      && exists i :: 0 <= i < |gs.value.players| && gs.value.players[i].pubkey == wallet.value
                     && !gs.value.players[i].finished
                     && forall j :: 0 <= j < i ==> gs.value.players[j].pubkey != wallet.value
    ensures r ==> IsPlayerInGame(gs, wallet) && gs.value.state == IN_PROGRESS_LABEL
    ensures r ==> !CurrentPlayer(gs, wallet).value.finished
    ensures r ==> forall m :: !CanJoin(gs, wallet, m)
  {
    gs.Some? && gs.value.state == IN_PROGRESS_LABEL && IsPlayerInGame(gs, wallet)
    && !CurrentPlayer(gs, wallet).value.finished
  }

  /** `hasWon`: a winner is recorded and it is the wallet. The prize pool is not consulted. */
  function HasWon(gs: Option<ClientGame>, wallet: Option<Pubkey>): (r: bool)
    ensures r <==> gs.Some? && gs.value.winner.Some? && wallet == gs.value.winner
  {
    gs.Some? && gs.value.winner.Some? && wallet.Some? && gs.value.winner.value == wallet.value
  }

  /** The entry found is the first one carrying the key. */
  lemma FindPlayerFirst(players: seq<ClientPlayer>, key: Pubkey, k: nat)
    requires k < |players| && players[k].pubkey == key
    requires forall j :: 0 <= j < k ==> players[j].pubkey != key
    ensures FindPlayer(players, key) == Some(players[k])
  {
    var r := FindPlayer(players, key);
    var i :| 0 <= i < |players| && players[i] == r.value && r.value.pubkey == key
      && forall j :: 0 <= j < i ==> players[j].pubkey != key;
    assert i == k;
  }

  /** The view finds the same entry the program's `position` search finds. */
  lemma FindPlayerInView(g: Game, key: Pubkey)
    ensures FindPlayer(View(g).players, key).Some? <==> InRoster(g.players, key)
    ensures InRoster(g.players, key) ==>
      FindPlayer(View(g).players, key) == Some(ViewPlayer(g.players[IndexOf(g.players, key).value]))
  {
    var ps := View(g).players;
    if InRoster(g.players, key) {
      var k := IndexOf(g.players, key).value;
      forall j | 0 <= j < k
        ensures ps[j].pubkey != key
      {
        assert ps[j] == ViewPlayer(g.players[j]);
      }
      FindPlayerFirst(ps, key, k);
    } else {
      forall i | 0 <= i < |ps|
        ensures ps[i].pubkey != key
      {
        assert ps[i] == ViewPlayer(g.players[i]);
      }
    }
  }

  /**
   * With the default cap of five, `canJoin` holds for a connected wallet
   * exactly when `join_race` passes its three guards (phase, roster size,
   * duplicate key).
   */
  lemma CanJoinMatchesJoinGuards(g: Game, lamports: Balances, gameAddress: Pubkey, key: Pubkey)
    ensures CanJoin(Some(View(g)), Some(key), MAX_PLAYERS) <==>
      JoinRace(g, lamports, gameAddress, key) !in
        {Err(Rejected(GameNotJoinable)), Err(Rejected(GameFull)), Err(Rejected(AlreadyJoined))}
  {
    FindPlayerInView(g, key);
  }

  /** A cap configured at or below five is still sound: `canJoin` implies the three guards pass. */
  lemma CanJoinSound(g: Game, lamports: Balances, gameAddress: Pubkey, key: Pubkey, maxPlayers: int)
    requires maxPlayers <= MAX_PLAYERS
    requires CanJoin(Some(View(g)), Some(key), maxPlayers)
    ensures JoinRace(g, lamports, gameAddress, key) !in
      {Err(Rejected(GameNotJoinable)), Err(Rejected(GameFull)), Err(Rejected(AlreadyJoined))}
  {
    FindPlayerInView(g, key);
  }

  /** Without a wallet `canJoin` ignores the caller altogether. */
  lemma CanJoinWithoutWallet(g: Game, maxPlayers: int)
    ensures CanJoin(Some(View(g)), None, maxPlayers) <==>
      g.state == WaitingForPlayers && |g.players| < maxPlayers
  {
  }

  /**
   * `canPlay` holds exactly when `roll_and_move` passes its guards (phase,
   * membership, not finished); `use_boost` has the same three first guards.
   */
  lemma CanPlayMatchesMoveGuards(g: Game, key: Pubkey, clock: Clock)
    ensures CanPlay(Some(View(g)), Some(key)) <==>
      RollAndMove(g, key, clock) !in
        {Err(Rejected(GameNotInProgress)), Err(Rejected(PlayerNotFound)), Err(Rejected(PlayerAlreadyFinished))}
    ensures CanPlay(Some(View(g)), Some(key)) <==>
      UseBoost(g, key) !in
        {Err(Rejected(GameNotInProgress)), Err(Rejected(PlayerNotFound)), Err(Rejected(PlayerAlreadyFinished))}
  {
    FindPlayerInView(g, key);
  }

  /**
   * For a game the program can produce, `hasWon` holds exactly when
   * `claim_prize` passes its phase and winner guards.
   */
  lemma HasWonMatchesClaimGuards(g: Game, lamports: Balances, gameAddress: Pubkey, key: Pubkey)
    requires GameInv(g)
    ensures HasWon(Some(View(g)), Some(key)) <==>
      ClaimPrize(g, lamports, gameAddress, key) !in {Err(Rejected(GameNotFinished)), Err(Rejected(NotWinner))}
  {
  }

  /** `hasWon` stays true after the prize has been claimed, while a second claim fails. */
  lemma HasWonAfterClaim(g: Game, lamports: Balances, gameAddress: Pubkey, key: Pubkey)
    requires ClaimPrize(g, lamports, gameAddress, key).Ok?
    ensures
      var (g', b') := ClaimPrize(g, lamports, gameAddress, key).value;
      && HasWon(Some(View(g')), Some(key))
      && ClaimPrize(g', b', gameAddress, key) == Err(Rejected(NoPrizeToClaimX))
  {
  }
}
