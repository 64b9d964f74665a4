/**
 * The size of the game account.
 *
 * `initialize_game` allocates `8 + size_of::<Game>()` bytes, while Anchor
 * writes the game back after every instruction in its Borsh encoding, whose
 * length grows with the roster. Rust lays `Game` out with its 8-aligned
 * fields first (game_id, entry_fee, the 24-byte Vec header, prize_pool: 48
 * bytes) and then the byte-aligned ones (authority 32, winner 33, state 1,
 * track_length 1: 67 bytes), 115 bytes rounded up to 120. The encoding of a
 * game with two players is 141 bytes, so in the account as allocated the
 * second join can never be written back and the race can never start.
 *
 * The rest of the model ignores account size, which is the same as
 * allocating room for a full roster; `CORRECTED_SPACE` is that room.
 */
module AccountSize {
  import opened Common
  import opened RaceTypes
  import opened Escrow
  import opened Dice
  import opened RaceProgram

  const DISCRIMINATOR_LEN: nat := 8
  /** `std::mem::size_of::<Game>()` on a 64-bit target. */
  const GAME_STRUCT_SIZE: nat := 120
  /** The `space` of the `init` constraint as written. */
  const DECLARED_SPACE: nat := DISCRIMINATOR_LEN + GAME_STRUCT_SIZE
  /** Borsh length of one `Player`: key, position, boosts, finished. */
  const PLAYER_LEN: nat := 32 + 1 + 1 + 1
  /** Room for the encoding of a game with a full roster and a winner. */
  const CORRECTED_SPACE: nat := DISCRIMINATOR_LEN + 32 + 8 + 1 + 8 + 1 + 4 + PLAYER_LEN * MAX_PLAYERS + 8 + 33

  /** Discriminator plus the Borsh encoding of the game. */
  function EncodedLen(g: Game): (n: nat)
    ensures n == 71 + PLAYER_LEN * |g.players| + (if g.winner.Some? then 32 else 0)
  {
    DISCRIMINATOR_LEN
    + 32                                   // authority
    + 8                                    // game_id
    + 1                                    // state
    + 8                                    // entry_fee
    + 1                                    // track_length
    + 4 + PLAYER_LEN * |g.players|         // players
    + 8                                    // prize_pool
    + (if g.winner.Some? then 33 else 1)   // winner
  }

  /** One instruction in an account of `space` bytes: its effect must also fit when written back. */
  function StepIn(space: nat, g: Game, lamports: Balances, gameAddress: Pubkey, a: Action): (r: Result<(Game, Balances)>)
    ensures r.Ok? <==> Step(g, lamports, gameAddress, a).Ok? && EncodedLen(Step(g, lamports, gameAddress, a).value.0) <= space
    ensures r.Ok? ==> r == Step(g, lamports, gameAddress, a)
  {
    match Step(g, lamports, gameAddress, a)
    case Err(f) => Err(f)
    case Ok((g', b')) => if EncodedLen(g') <= space then Ok((g', b')) else Err(AccountDidNotSerialize)
  }

  function RunIn(space: nat, g: Game, lamports: Balances, gameAddress: Pubkey, actions: seq<Action>): (Game, Balances)
    decreases |actions|
  {
    if |actions| == 0 then (g, lamports)
    else
      match StepIn(space, g, lamports, gameAddress, actions[0])
      case Ok((g', b')) => RunIn(space, g', b', gameAddress, actions[1..])
      case Err(_) => RunIn(space, g, lamports, gameAddress, actions[1..])
  }

  /** A game that has not started and has at most one player. */
  predicate NotStarted(g: Game)
  {
    g.state == WaitingForPlayers && |g.players| <= 1 && g.winner == None
  }

  /** In the account as allocated, no history ever starts the race. */
  lemma {:induction false} DeclaredSpaceNeverStarts(g: Game, lamports: Balances, gameAddress: Pubkey, actions: seq<Action>)
    requires NotStarted(g)
    ensures NotStarted(RunIn(DECLARED_SPACE, g, lamports, gameAddress, actions).0)
    decreases |actions|
  {
    if |actions| > 0 {
      var r := StepIn(DECLARED_SPACE, g, lamports, gameAddress, actions[0]);
      if r.Ok? {
        var (g', b') := r.value;
        assert NotStarted(g');
        DeclaredSpaceNeverStarts(g', b', gameAddress, actions[1..]);
      } else {
        DeclaredSpaceNeverStarts(g, lamports, gameAddress, actions[1..]);
      }
    }
  }

  /** With room for a full roster the size check never fires: the sized model is the unsized one. */
  lemma CorrectedSpaceAlwaysFits(g: Game, lamports: Balances, gameAddress: Pubkey, a: Action)
    requires |g.players| <= MAX_PLAYERS
    ensures StepIn(CORRECTED_SPACE, g, lamports, gameAddress, a) == Step(g, lamports, gameAddress, a)
  {
    var r := Step(g, lamports, gameAddress, a);
    if r.Ok? {
      assert |r.value.0.players| <= MAX_PLAYERS;
    }
  }

  /** Two funded players join a new game: the race stays unstarted as written, and starts with the corrected space. */
  lemma TwoJoins(authority: Pubkey, clock: Clock, entryFee: U64, trackLength: U8,
                 lamports: Balances, gameAddress: Pubkey, p1: Pubkey, p2: Pubkey)
    requires p1 != p2 && p1 != gameAddress && p2 != gameAddress
    requires entryFee <= BalanceOf(lamports, p1) && entryFee <= BalanceOf(lamports, p2)
    requires 2 * entryFee < U64_LIMIT
    ensures
      var g0 := InitializeGame(authority, clock, entryFee, trackLength);
      && RunIn(DECLARED_SPACE, g0, lamports, gameAddress, [Join(p1), Join(p2)]).0.state == WaitingForPlayers
      && RunIn(CORRECTED_SPACE, g0, lamports, gameAddress, [Join(p1), Join(p2)]).0.state == InProgress
  {
    var g0 := InitializeGame(authority, clock, entryFee, trackLength);
    var actions := [Join(p1), Join(p2)];
    DeclaredSpaceNeverStarts(g0, lamports, gameAddress, actions);
    var (g1, b1) := JoinRace(g0, lamports, gameAddress, p1).value;
    assert RunIn(CORRECTED_SPACE, g0, lamports, gameAddress, actions) == RunIn(CORRECTED_SPACE, g1, b1, gameAddress, actions[1..]);
    assert g1.players == [NewPlayer(p1)];
    assert !InRoster(g1.players, p2);
    var (g2, b2) := JoinRace(g1, b1, gameAddress, p2).value;
    assert RunIn(CORRECTED_SPACE, g1, b1, gameAddress, actions[1..]) == RunIn(CORRECTED_SPACE, g2, b2, gameAddress, []);
  }
}
