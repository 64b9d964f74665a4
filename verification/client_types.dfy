/**
 * The frontend's picture of a game: the `Player` and `GameState` shapes the
 * hooks read, with the phase as the camel-case string the enum carries.
 */
module ClientTypes {
  import opened Common
  import opened RaceTypes
  import opened Numerals

  const WAITING_LABEL: string := "waitingForPlayers"
  const IN_PROGRESS_LABEL: string := "inProgress"
  const FINISHED_LABEL: string := "finished"

  datatype ClientPlayer = ClientPlayer(pubkey: Pubkey, position: int, boostsRemaining: int, finished: bool)

  datatype ClientGame = ClientGame(
    authority: Pubkey,
    gameId: string,
    state: string,
    entryFee: int,
    trackLength: int,
    players: seq<ClientPlayer>,
    prizePool: int,
    winner: Option<Pubkey>)

  /** The string value of each phase in the frontend's enum. */
  function StateLabel(s: GameState): (name: string)
    ensures name in {WAITING_LABEL, IN_PROGRESS_LABEL, FINISHED_LABEL}
    ensures name == [WAITING_LABEL, IN_PROGRESS_LABEL, FINISHED_LABEL][Rank(s)]
  {
    match s
    case WaitingForPlayers => WAITING_LABEL
    case InProgress => IN_PROGRESS_LABEL
    case Finished => FINISHED_LABEL
  }

  /** Distinct phases carry distinct labels, so the frontend can tell them apart. */
  lemma StateLabelInjective(s: GameState, t: GameState)
    requires StateLabel(s) == StateLabel(t)
    ensures s == t
  {
  }

  function ViewPlayer(p: Player): (c: ClientPlayer)
    ensures c.pubkey == p.pubkey && c.finished == p.finished
    ensures c.position == p.position && c.boostsRemaining == p.boostsRemaining
  {
    ClientPlayer(p.pubkey, p.position, p.boostsRemaining, p.finished)
  }

  /** The game account as the frontend sees it once fetched. */
  function View(g: Game): (c: ClientGame)
    ensures c.state == StateLabel(g.state) && c.winner == g.winner
    ensures c.authority == g.authority && c.entryFee == g.entryFee
    ensures c.trackLength == g.trackLength && c.prizePool == g.prizePool
    ensures |c.players| == |g.players|
    ensures forall i :: 0 <= i < |g.players| ==> c.players[i] == ViewPlayer(g.players[i])
  {
    ClientGame(g.authority, IntToString(g.gameId), StateLabel(g.state), g.entryFee, g.trackLength,
               seq(|g.players|, i requires 0 <= i < |g.players| => ViewPlayer(g.players[i])),
               g.prizePool, g.winner)
  }
}
