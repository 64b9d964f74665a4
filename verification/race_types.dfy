/**
 * The account data of the race program: the `Game` record, its `Player`
 * entries, the closed `GameState` phase and the program's error codes.
 */
module RaceTypes {
  import opened Common

  /** Roster bound tested by `join_race` (a literal 5 in the program). */
  const MAX_PLAYERS: nat := 5
  /** Boosts every player starts with. */
  const BOOSTS_PER_PLAYER: U8 := 3
  /** Distance one boost adds. */
  const BOOST_AMOUNT: U8 := 3
  /** Byte length of a ledger public key. */
  const PUBKEY_LEN: nat := 32

  /** A ledger public key: 32 bytes. */
  type Pubkey = k: seq<U8> | |k| == PUBKEY_LEN witness seq(PUBKEY_LEN, _ => 0)

  datatype GameState = WaitingForPlayers | InProgress | Finished

  datatype Player = Player(pubkey: Pubkey, position: U8, boostsRemaining: U8, finished: bool)

  datatype Game = Game(
    authority: Pubkey,
    gameId: U64,
    state: GameState,
    entryFee: U64,
    trackLength: U8,
    players: seq<Player>,
    prizePool: U64,
    winner: Option<Pubkey>)

  /** The program's own error codes, in declaration order. */
  datatype GameError =
    | GameNotJoinable
    | GameFull
    | AlreadyJoined
    | GameNotInProgress
    | PlayerNotFound
    | PlayerAlreadyFinished
    | NoBoostsRemaining
    | GameNotFinished
    | NotWinner
    | NoPrizeToClaimX

  /**
   * Why a transaction aborted: one of the program's `require!` guards, a
   * refusal by the system program's transfer, a panic on an arithmetic
   * overflow, or Anchor failing to write the game record back into an account
   * too small for it. Every failure leaves all accounts as they were.
   */
  datatype Failure =
    | Rejected(code: GameError)
    | InsufficientFunds
    | InvalidArgument
    | ArithmeticOverflow
    | AccountDidNotSerialize

  datatype Result<+T> = Ok(value: T) | Err(failure: Failure) {
    predicate IsFailure() {
      Err?
    }

    /** Carries a failure over to a result of another value type. */
    function PropagateFailure<U>(): Result<U>
      requires Err?
    {
      Err(failure)
    }

    function Extract(): T
      requires Ok?
    {
      value
    }
  }

  /** Order of the phases; a phase never moves to a lower rank. */
  function Rank(s: GameState): nat
  {
    match s
    case WaitingForPlayers => 0
    case InProgress => 1
    case Finished => 2
  }

  /** The name Anchor reports for an error code. */
  function ErrorName(e: GameError): string
  {
    match e
    case GameNotJoinable => "GameNotJoinable"
    case GameFull => "GameFull"
    case AlreadyJoined => "AlreadyJoined"
    case GameNotInProgress => "GameNotInProgress"
    case PlayerNotFound => "PlayerNotFound"
    case PlayerAlreadyFinished => "PlayerAlreadyFinished"
    case NoBoostsRemaining => "NoBoostsRemaining"
    case GameNotFinished => "GameNotFinished"
    case NotWinner => "NotWinner"
    case NoPrizeToClaimX => "NoPrizeToClaimX"
  }

  /** The key occurs somewhere in the roster. */
  predicate InRoster(players: seq<Player>, key: Pubkey)
  {
    exists i :: 0 <= i < |players| && players[i].pubkey == key
  }

  /** No key occurs twice in the roster. */
  predicate UniqueKeys(players: seq<Player>)
  {
    forall i, j :: 0 <= i < j < |players| ==> players[i].pubkey != players[j].pubkey
  }

  /**
   * Index of the first roster entry with the given key, as Rust's
   * `iter().position(|p| p.pubkey == key)`.
   */
  function IndexOf(players: seq<Player>, key: Pubkey): (r: Option<nat>)
    ensures r.None? <==> !InRoster(players, key)
    ensures r.Some? ==> r.value < |players| && players[r.value].pubkey == key
    ensures r.Some? ==> forall j :: 0 <= j < r.value ==> players[j].pubkey != key
  {
    if |players| == 0 then None
    else if players[0].pubkey == key then Some(0)
    else
      match IndexOf(players[1..], key)
      case None =>
        assert forall i :: 1 <= i < |players| ==> players[i] == players[1..][i - 1];
        None
      case Some(i) => Some(i + 1)
  }

  /** In a roster without duplicates, the entry found is the only one with that key. */
  lemma IndexOfUnique(players: seq<Player>, key: Pubkey, i: nat)
    requires UniqueKeys(players)
    requires i < |players| && players[i].pubkey == key
    ensures IndexOf(players, key) == Some(i)
  {
    assert InRoster(players, key);
  }
}
