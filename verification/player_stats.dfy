/**
 * The per-wallet statistics the frontend keeps in the browser's local
 * storage, one JSON record under `playerStats_<key>` for each wallet.
 *
 * The storage is a map from item key to record; an absent item reads as the
 * all-zero record. The win rate is a floating-point quotient and is not
 * modelled.
 */
module PlayerStats {
  import opened Common
  import opened RaceTypes
  import opened ClientTypes

  datatype Stats = Stats(gamesPlayed: int, gamesWon: int, totalDistance: int, totalBoostsUsed: int, totalPrizesWon: int)

  datatype GameResult = GameResult(won: bool, distance: int, boostsUsed: int, prizeWon: int)

  type Store = map<string, Stats>

  const ZERO_STATS: Stats := Stats(0, 0, 0, 0, 0)

  const STATS_PREFIX: string := "playerStats_"

  /** The storage item of a wallet. */
  function StatsKey(wallet: string): (k: string)
    ensures |k| == |STATS_PREFIX| + |wallet| && k[..|STATS_PREFIX|] == STATS_PREFIX
    ensures k[|STATS_PREFIX|..] == wallet
  {
    STATS_PREFIX + wallet
  }

  /** Distinct wallets never share a storage item. */
  lemma StatsKeyInjective(a: string, b: string)
    requires StatsKey(a) == StatsKey(b)
    ensures a == b
  {
    assert a == StatsKey(a)[|STATS_PREFIX|..];
    assert b == StatsKey(b)[|STATS_PREFIX|..];
  }

  /** `getPlayerStats`: the stored record, or all zeroes. */
  function GetPlayerStats(store: Store, wallet: string): (s: Stats)
    ensures StatsKey(wallet) !in store ==> s == ZERO_STATS
    ensures StatsKey(wallet) in store ==> s == store[StatsKey(wallet)]
  {
    if StatsKey(wallet) in store then store[StatsKey(wallet)] else ZERO_STATS
  }

  /** The record after one more game. */
  function Record(s: Stats, g: GameResult): (t: Stats)
    ensures t.gamesPlayed == s.gamesPlayed + 1
    ensures t.gamesWon == s.gamesWon + (if g.won then 1 else 0)
    ensures t.totalDistance == s.totalDistance + g.distance
    ensures t.totalBoostsUsed == s.totalBoostsUsed + g.boostsUsed
    ensures t.totalPrizesWon == s.totalPrizesWon + g.prizeWon
  {
    Stats(s.gamesPlayed + 1,
          if g.won then s.gamesWon + 1 else s.gamesWon,
          s.totalDistance + g.distance,
          s.totalBoostsUsed + g.boostsUsed,
          s.totalPrizesWon + g.prizeWon)
  }

  /** `updatePlayerStats`: read the wallet's record, add the game, write it back; other items stay as they were. */
  function UpdatePlayerStats(store: Store, wallet: string, g: GameResult): (r: Store)
    ensures r.Keys == store.Keys + {StatsKey(wallet)}
    ensures GetPlayerStats(r, wallet) == Record(GetPlayerStats(store, wallet), g)
    ensures forall k :: k in store && k != StatsKey(wallet) ==> r[k] == store[k]
  {
    store[StatsKey(wallet) := Record(GetPlayerStats(store, wallet), g)]
  }

  /** A record any sequence of sensible games can produce: counts are non-negative and wins never exceed games. */
  predicate Sane(s: Stats)
  {
    0 <= s.gamesWon <= s.gamesPlayed && s.totalDistance >= 0 && s.totalBoostsUsed >= 0 && s.totalPrizesWon >= 0
  }

  predicate SaneResult(g: GameResult)
  {
    g.distance >= 0 && g.boostsUsed >= 0 && g.prizeWon >= 0
  }

  lemma UpdateKeepsSane(store: Store, wallet: string, g: GameResult)
    requires Sane(GetPlayerStats(store, wallet)) && SaneResult(g)
    ensures Sane(GetPlayerStats(UpdatePlayerStats(store, wallet, g), wallet))
  {
  }

  /** The result the game hook records after a successful claim: a win, the distance run, the boosts spent, the pool. */
  function ClaimResult(p: ClientPlayer, prizePool: int): (g: GameResult)
    ensures g.won && g.distance == p.position && g.prizeWon == prizePool
    ensures g.boostsUsed + p.boostsRemaining == BOOSTS_PER_PLAYER
  {
    GameResult(true, p.position, BOOSTS_PER_PLAYER - p.boostsRemaining, prizePool)
  }

  /** For a player the program can hold, the recorded result is sensible. */
  lemma ClaimResultSane(p: Player, prizePool: U64)
    requires p.boostsRemaining <= BOOSTS_PER_PLAYER
    ensures SaneResult(ClaimResult(ViewPlayer(p), prizePool))
    ensures ClaimResult(ViewPlayer(p), prizePool).boostsUsed <= BOOSTS_PER_PLAYER
  {
  }

  /** The store after recording `games` for `wallet`, first game first. */
  function Replay(store: Store, wallet: string, games: seq<GameResult>): Store
    decreases |games|
  {
    if |games| == 0 then store else Replay(UpdatePlayerStats(store, wallet, games[0]), wallet, games[1..])
  }

  function Wins(games: seq<GameResult>): nat
    decreases |games|
  {
    if |games| == 0 then 0 else (if games[0].won then 1 else 0) + Wins(games[1..])
  }

  function Distance(games: seq<GameResult>): int
    decreases |games|
  {
    if |games| == 0 then 0 else games[0].distance + Distance(games[1..])
  }

  function Boosts(games: seq<GameResult>): int
    decreases |games|
  {
    if |games| == 0 then 0 else games[0].boostsUsed + Boosts(games[1..])
  }

  function Prizes(games: seq<GameResult>): int
    decreases |games|
  {
    if |games| == 0 then 0 else games[0].prizeWon + Prizes(games[1..])
  }

  /** After a history of games the record counts every game, every win, all distance, all boosts and all prizes. */
  lemma {:induction false} ReplayCounts(store: Store, wallet: string, games: seq<GameResult>)
    ensures
      var before, after := GetPlayerStats(store, wallet), GetPlayerStats(Replay(store, wallet, games), wallet);
      && after.gamesPlayed == before.gamesPlayed + |games|
      && after.gamesWon == before.gamesWon + Wins(games)
      && after.totalDistance == before.totalDistance + Distance(games)
      && after.totalBoostsUsed == before.totalBoostsUsed + Boosts(games)
      && after.totalPrizesWon == before.totalPrizesWon + Prizes(games)
    decreases |games|
  {
    if |games| > 0 {
      ReplayCounts(UpdatePlayerStats(store, wallet, games[0]), wallet, games[1..]);
    }
  }

  /** Recording games for one wallet leaves every other wallet's record alone. */
  lemma {:induction false} ReplayLeavesOthers(store: Store, wallet: string, other: string, games: seq<GameResult>)
    requires other != wallet
    ensures GetPlayerStats(Replay(store, wallet, games), other) == GetPlayerStats(store, other)
    decreases |games|
  {
    if |games| > 0 {
      if StatsKey(other) == StatsKey(wallet) {
        StatsKeyInjective(other, wallet);
      }
      ReplayLeavesOthers(UpdatePlayerStats(store, wallet, games[0]), wallet, other, games[1..]);
    }
  }
}
