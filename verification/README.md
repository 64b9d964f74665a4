# Trash to Treasure Rally: a Dafny model of the race program and its client logic

This project models the core of a small on-chain racing game and the pure logic
its web client builds around it.

**The race program.** Each game is one `Game` account with a closed
three-phase state (`WaitingForPlayers`, `InProgress`, `Finished`). The program
has five instructions:

- `initialize_game` creates a game.
- `join_race` takes the entry fee into the game account. The second player
  starts the race.
- `roll_and_move` advances the caller by a dice value of 1 to 6.
- `use_boost` spends one of the caller's three boosts to advance by 3. The
  first player to reach the track length finishes the race as the winner.
- `claim_prize` pays the prize pool to the winner.

Each instruction checks all its guards before it writes anything, and a
failure aborts the whole transaction. So each instruction is a pure function
from the game and the lamport balances to either a new game and new balances
or a failure, and a failed transaction leaves both as they were (`Commit`,
`Run`).

The model follows the Rust code in these details:

- Rust integer widths are kept: positions and boosts are `u8`, fees and the
  pool are `u64`.
- Arithmetic is checked. A carry out of the width is the panic that aborts
  the transaction.
- The dice seed wraps modulo 2^64, as `wrapping_add` does.

**The invariant.** One invariant, `GameInv` with `EscrowInv`, is proved to
hold after every committed transaction from `initialize_game` on. It says:

- the roster never exceeds two players, because the second join closes joining;
- keys are unique;
- the pool is one entry fee per player until the claim empties it;
- there is a winner exactly when the race is finished, and the winner is the
  only finished player;
- boosts stay within 0 to 3;
- the game account always covers the pool.

Consequences that follow from it:

- `GameFull` and `PlayerAlreadyFinished` can never be returned.
- On a track of at most 250 the `u8` position cannot overflow. On a 255-long
  track a valid game exists whose winning boost overflows and aborts instead.
- `track_length` is never validated, so a zero-length track is accepted.
- With a zero entry fee the race can be won but nothing can be claimed
  (`NoPrizeToClaimX`).

**The client.** The client-side parts that are modelled:

- the predicates the game hook derives from the fetched game: `currentPlayer`,
  `isPlayerInGame`, `canJoin`, `canPlay`, `hasWon`. Each is related to the
  guards of the instruction it enables;
- the display helpers: shortened keys, player icons, phase labels and the
  "time ago" text;
- the mapping from thrown errors to player-facing sentences;
- the statistics counter kept per wallet in local storage.

JavaScript semantics are written out where they differ from Dafny's:

- `%` truncates toward zero;
- `slice(-n)` counts from the end;
- an empty string is falsy;
- an out-of-range array lookup is `undefined`, modelled as `None`.

Modules:

- `Common`: integer widths and `Option`.
- `RaceTypes`: accounts, errors and the roster search.
- `Escrow`: lamport balances and transfers.
- `Dice`: seed and roll.
- `RaceProgram`: the five instructions.
- `RaceInvariants`: the invariant and what follows from it.
- `AccountSize`: the account-size finding below.
- `Scenarios`: whole races.
- `Numerals`: integer to text.
- `ClientTypes`: the client's view of a game.
- `ClientGuards`: the hook predicates.
- `Display`: the display helpers.
- `ErrorMessages`: the error sentences.
- `PlayerStats`: the statistics counter.

## Model

| member | source | states |
|---|---|---|
| `Common.WrappingAddU64` | race-contract/programs/race-contract/src/lib.rs:90-91 | the sum is exact below 2^64 and loses exactly 2^64 when it carries |
| `Common.I64AsU64` | race-contract/programs/race-contract/src/lib.rs:91 | a non-negative timestamp keeps its value; a negative one reads as itself plus 2^64 |
| `Common.CheckedAddU8` | race-contract/programs/race-contract/src/lib.rs:100 | the u8 addition succeeds exactly when the sum stays below 256, and then it is the sum |
| `Common.CheckedAddU64` | race-contract/programs/race-contract/src/lib.rs:60 | the u64 addition succeeds exactly when the sum stays below 2^64, and then it is the sum |
| `RaceTypes.IndexOf` | race-contract/programs/race-contract/src/lib.rs:82-83 | absent exactly when no roster entry has the key; otherwise an entry with the key before which no entry has it |
| `RaceTypes.IndexOfUnique` | race-contract/programs/race-contract/src/lib.rs:36 | in a duplicate-free roster the search finds the one entry carrying the key |
| `Escrow.Transfer` | race-contract/programs/race-contract/src/lib.rs:42-48 | fails exactly when the source holds less than the amount; otherwise the source loses and the destination gains the amount and no other account changes |
| `Escrow.TransferConserves` | race-contract/programs/race-contract/src/lib.rs:183-184 | a transfer leaves the sum of all balances unchanged |
| `Dice.Seed` | race-contract/programs/race-contract/src/lib.rs:88-91 | the two wrapping additions give slot plus key byte plus timestamp modulo 2^64 |
| `Dice.Roll` | race-contract/programs/race-contract/src/lib.rs:92 | the roll lies in 1..6 and is congruent to the seed plus one modulo 6 |
| `Dice.EveryFaceReachable` | race-contract/programs/race-contract/src/lib.rs:87-92 | for any key byte, each face 1..6 comes from some clock reading |
| `RaceProgram.InitializeGame` | race-contract/programs/race-contract/src/lib.rs:13-22 | a new game is waiting for players, with an empty roster, an empty pool, no winner, the given fee and track, and the slot as id |
| `RaceProgram.JoinRace` | race-contract/programs/race-contract/src/lib.rs:30-71 | the errors come in the order phase, roster size, duplicate key; success exactly when all guards and the fee payment pass; one fresh player is appended, the pool grows by the fee, the fee moves from caller to game account, the second player starts the race, nothing else changes |
| `RaceProgram.Advance` | race-contract/programs/race-contract/src/lib.rs:97-119 | overflow exactly when the new position exceeds 255; otherwise only the mover's entry changes, by exactly the distance and boost cost, and reaching the track length finishes mover and race with the mover as winner |
| `RaceProgram.DiceFor` | race-contract/programs/race-contract/src/lib.rs:87-92 | the dice drawn for a roller always lies in 1..6 |
| `RaceProgram.RollAndMove` | race-contract/programs/race-contract/src/lib.rs:74-122 | fails with not-in-progress, then player-not-found, then already-finished, then overflow, each exactly under its condition; succeeds exactly when an unfinished roster member of a running race stays below 256 after adding the dice value, and a success moves the caller by that value as `Advance` describes |
| `RaceProgram.UseBoost` | race-contract/programs/race-contract/src/lib.rs:125-168 | the same guards plus no-boosts-remaining, each exactly under its condition; succeeds exactly when an unfinished roster member of a running race has a boost left and stays below 256 after adding 3, and a success moves the caller by 3 at the cost of one boost |
| `RaceProgram.ClaimPrize` | race-contract/programs/race-contract/src/lib.rs:171-190 | fails with not-finished, then not-winner, then no-prize; succeeds exactly for the winner of a finished race with a non-empty pool covered by the game account; pays the whole pool to the winner, empties the pool and changes nothing else |
| `RaceProgram.Step` | race-contract/programs/race-contract/src/lib.rs:30-190 | a roll or a boost never moves lamports, and succeeds exactly when the corresponding instruction does |
| `RaceProgram.Commit` | race-contract/programs/race-contract/src/lib.rs:30-190 | a failed instruction leaves the game and the balances as they were; a successful one takes effect in full |
| `RaceProgram.RunAppend` | race-contract/programs/race-contract/src/lib.rs:30-190 | running two histories in turn is running their concatenation |
| `RaceProgram.FailedRunChangesNothing` | race-contract/programs/race-contract/src/lib.rs:30-190 | a history of transactions that all fail leaves the game and the balances as they were |
| `RaceInvariants.EvolvesTransitive` | race-contract/programs/race-contract/src/lib.rs:30-190 | the allowed-evolution relation composes over successive transactions |
| `RaceInvariants.InitEstablishesInv` | race-contract/programs/race-contract/src/lib.rs:13-22 | every new game satisfies the invariant, whatever fee and track length, zero included |
| `RaceInvariants.JoinPreservesInv` | race-contract/programs/race-contract/src/lib.rs:30-71 | a successful join keeps the invariant and is an allowed evolution |
| `RaceInvariants.MovePreservesGameInv` | race-contract/programs/race-contract/src/lib.rs:97-119 | a move of an unfinished player in a running race keeps the game invariant and is an allowed evolution |
| `RaceInvariants.RollPreservesInv` | race-contract/programs/race-contract/src/lib.rs:74-122 | a successful roll keeps the invariant and is an allowed evolution |
| `RaceInvariants.BoostPreservesInv` | race-contract/programs/race-contract/src/lib.rs:125-168 | a successful boost keeps the invariant and is an allowed evolution |
| `RaceInvariants.ClaimPreservesInv` | race-contract/programs/race-contract/src/lib.rs:171-190 | a successful claim keeps the invariant and is an allowed evolution |
| `RaceInvariants.StepPreservesInv` | race-contract/programs/race-contract/src/lib.rs:8-191 | every transaction, committed or aborted, keeps the invariant |
| `RaceInvariants.RunPreservesInv` | race-contract/programs/race-contract/src/lib.rs:8-191 | every serialized history keeps the invariant, and the final game is an allowed evolution of the first |
| `RaceInvariants.ReachableGames` | race-contract/programs/race-contract/src/lib.rs:65-66 | every game reachable from `initialize_game` has at most two players, one fee per player in the pool until the claim, and a winner exactly when finished |
| `RaceInvariants.GameFullUnreachable` | race-contract/programs/race-contract/src/lib.rs:35 | no valid game ever rejects a join as full |
| `RaceInvariants.AlreadyFinishedUnreachable` | race-contract/programs/race-contract/src/lib.rs:85 | no valid game ever rejects a roll or a boost because the player already finished |
| `RaceInvariants.ClaimNeverUnderflows` | race-contract/programs/race-contract/src/lib.rs:183 | the debit of the game account in a claim never underflows |
| `RaceInvariants.NoPositionOverflowOnShortTracks` | race-contract/programs/race-contract/src/lib.rs:253 | with a track of at most 250 no roll or boost overflows the u8 position |
| `RaceInvariants.PositionOverflowOnLongTrack` | race-contract/programs/race-contract/src/lib.rs:146 | on a 255-long track a valid game exists whose winning boost overflows and aborts |
| `RaceInvariants.StepConservesLamports` | race-contract/programs/race-contract/src/lib.rs:183-184 | every transaction preserves the total lamports and the game account's surplus over the pool |
| `RaceInvariants.ClaimOnlyOnce` | race-contract/programs/race-contract/src/lib.rs:177 | after a successful claim the pool is empty, the winner is unchanged and a repeat claim fails with no-prize |
| `RaceInvariants.FinishedRaceIsFrozen` | race-contract/programs/race-contract/src/lib.rs:79 | in a finished race every roll and boost is rejected as not in progress |
| `AccountSize.EncodedLen` | race-contract/programs/race-contract/src/lib.rs:238-256 | the stored game takes 71 bytes plus 35 per player plus 32 when a winner is set |
| `AccountSize.StepIn` | race-contract/programs/race-contract/src/lib.rs:195-198 | an instruction succeeds in a sized account exactly when it succeeds unsized and its result fits |
| `AccountSize.DeclaredSpaceNeverStarts` | race-contract/programs/race-contract/src/lib.rs:198 | in the account as allocated, no history ever gets past one player or starts the race |
| `AccountSize.CorrectedSpaceAlwaysFits` | race-contract/programs/race-contract/src/lib.rs:195-198 | with room for a full roster and a winner, the size never rejects anything |
| `AccountSize.TwoJoins` | race-contract/programs/race-contract/src/lib.rs:64-68 | two funded joins leave the race unstarted in the declared space and start it in the corrected space |
| `Scenarios.BoostToVictory` | race-contract/tests/race-contract.ts:212-275 | on a five-long track two boosts make the first player the winner at position 6; only that player can claim, and the claim pays out both fees |
| `Scenarios.LateComers` | race-contract/programs/race-contract/src/lib.rs:34 | once two players have joined, a third can neither join nor move |
| `Numerals.NatToString` | frontend/src/utils/index.ts:67-69 | the printed number is a non-empty run of digits without a leading zero |
| `Numerals.NatToStringValue` | frontend/src/utils/index.ts:67-69 | the printed digits denote the number printed |
| `Numerals.IntToStringRoundTrip` | frontend/src/utils/index.ts:67-69 | reading back a printed integer, sign included, gives the integer |
| `ClientTypes.StateLabel` | frontend/src/types/game.ts:41-45 | waiting, in progress and finished map to the first, second and third enum string, in that order |
| `ClientTypes.StateLabelInjective` | frontend/src/types/game.ts:41-45 | distinct phases have distinct strings |
| `ClientTypes.ViewPlayer` | frontend/src/types/game.ts:5-10 | the client's player keeps the key, position, boosts left and finished flag |
| `ClientTypes.View` | frontend/src/types/game.ts:12-21 | the client's game keeps the authority, fee, track length, pool and winner, the phase as its string, and every player in roster order |
| `ClientGuards.FindPlayer` | frontend/src/hooks/useGame.ts:294-296 | absent exactly when no entry has the key; otherwise the first entry with the key |
| `ClientGuards.FindPlayerFirst` | frontend/src/hooks/useGame.ts:294-296 | the entry found is the first entry carrying the key |
| `ClientGuards.FindPlayerInView` | frontend/src/hooks/useGame.ts:294-296 | in the fetched game the client finds the player exactly when the program's search does, and the same entry |
| `ClientGuards.CurrentPlayer` | frontend/src/hooks/useGame.ts:294-296 | null without a game or a wallet; otherwise the first entry carrying the wallet's key |
| `ClientGuards.IsPlayerInGame` | frontend/src/hooks/useGame.ts:298 | holds exactly when a wallet is connected and some entry carries its key |
| `ClientGuards.CanJoin` | frontend/src/hooks/useGame.ts:300-302 | holds exactly when a game is present, waiting for players, below the cap, and either no wallet is connected or no roster entry carries the wallet's key |
| `ClientGuards.CanPlay` | frontend/src/hooks/useGame.ts:304-306 | holds exactly when a game and a wallet are present, the race is in progress and the wallet's first roster entry is unfinished; excludes joining under any cap |
| `ClientGuards.HasWon` | frontend/src/hooks/useGame.ts:308-310 | holds exactly when a winner is set and it is the wallet |
| `ClientGuards.CanJoinMatchesJoinGuards` | frontend/src/hooks/useGame.ts:300-302 | with the cap of five, `canJoin` holds exactly when `join_race` passes its phase, size and duplicate guards |
| `ClientGuards.CanJoinSound` | frontend/src/hooks/useGame.ts:300-302 | with any cap up to five, `canJoin` implies those three guards pass |
| `ClientGuards.CanJoinWithoutWallet` | frontend/src/hooks/useGame.ts:300-302 | without a wallet `canJoin` depends only on phase and roster size |
| `ClientGuards.CanPlayMatchesMoveGuards` | frontend/src/hooks/useGame.ts:304-306 | `canPlay` holds exactly when a roll passes its three guards, and exactly when a boost passes the same three |
| `ClientGuards.HasWonMatchesClaimGuards` | frontend/src/hooks/useGame.ts:308-310 | for a valid game `hasWon` holds exactly when `claim_prize` passes its phase and winner guards |
| `ClientGuards.HasWonAfterClaim` | frontend/src/hooks/useGame.ts:308-310 | after a successful claim `hasWon` still holds while a second claim fails |
| `Display.SliceFront` | frontend/src/utils/index.ts:25 | a prefix of the key, of length n or the whole key if shorter |
| `Display.SliceBack` | frontend/src/utils/index.ts:25 | a suffix of the key, of length n or the whole key if shorter |
| `Display.Abbreviate` | frontend/src/utils/index.ts:25 | for a long enough key, its first n characters, the ellipsis and its last n; a shorter key appears whole on both sides |
| `Display.FormatPubkey` | frontend/src/utils/index.ts:23-26 | for keys of at least 4 characters, 11 characters: the first 4, the ellipsis, the last 4 |
| `Display.FormatPubkeyLong` | frontend/src/utils/index.ts:29-32 | for keys of at least 8 characters, 19 characters: the first 8, the ellipsis, the last 8 |
| `Display.LongFormExtendsShort` | frontend/src/utils/index.ts:22-32 | the long form begins with the short form's first 4 characters and ends with its last 4 |
| `Display.JsRemainder` | frontend/src/utils/index.ts:42 | agrees with the Euclidean remainder on non-negative numbers; on negative ones it is the negated remainder of the magnitude, in (-b, 0] and zero exactly for multiples |
| `Display.PlayerIcon` | frontend/src/utils/index.ts:40-43 | for a non-negative index, icon number index mod 5; for a negative index defined exactly on multiples of 5, where it is the first icon; always one of the five icons |
| `Display.PlayerIconPeriodic` | frontend/src/utils/index.ts:40-43 | icons repeat with period five, and the first five players get distinct icons |
| `Display.FormatGameState` | frontend/src/utils/index.ts:46-57 | each phase name maps to its own label ("Waiting for Players", "Race in Progress", "Race Finished"); "Unknown" exactly for every other string |
| `Display.PhaseLabelsDistinct` | frontend/src/utils/index.ts:46-57 | every program phase gets its own label, never "Unknown" |
| `Display.SplitElapsed` | frontend/src/utils/index.ts:60-70 | minutes are shown exactly from one whole minute on; then the seconds left over are below 60 and minutes and seconds bound the elapsed time to within a second |
| `Display.TimeElapsed` | frontend/src/utils/index.ts:60-70 | under one minute the text is the whole elapsed seconds followed by "s ago" |
| `ErrorMessages.FirstMatchFrom` | frontend/src/utils/index.ts:167-190 | absent exactly when no pattern from the start point occurs; otherwise the text of the first pattern that occurs |
| `ErrorMessages.ParseAnchorError` | frontend/src/utils/index.ts:160-196 | a non-empty program message wins; otherwise the first occurring pattern's text, else the message as it is; with neither, the unknown-error sentence |
| `ErrorMessages.ShownWhenFirst` | frontend/src/utils/index.ts:166-190 | a message whose first occurring pattern is entry j shows entry j's text |
| `ErrorMessages.ShownWhenNone` | frontend/src/utils/index.ts:192 | a non-empty message in which no pattern occurs is shown unchanged |
| `ErrorMessages.ProgramMessage` | race-contract/programs/race-contract/src/lib.rs:265-287 | every error code carries a non-empty message |
| `ErrorMessages.AnchorErrorShowsProgramMessage` | frontend/src/utils/index.ts:161-163 | an error object carrying the program's message for a code shows that message |
| `ErrorMessages.ErrorNameMessage` | frontend/src/utils/index.ts:166-192 | a message that is exactly a code's name shows that code's sentence; the three codes without one show their name |
| `ErrorMessages.ShownForNameInjective` | frontend/src/utils/index.ts:166-192 | messages that are exactly two different codes' names never give the same text |
| `PlayerStats.StatsKey` | frontend/src/utils/index.ts:260 | the storage item is the fixed prefix followed by the wallet, which is recoverable as the suffix |
| `PlayerStats.StatsKeyInjective` | frontend/src/utils/index.ts:285 | distinct wallets never share a storage item |
| `PlayerStats.GetPlayerStats` | frontend/src/utils/index.ts:259-268 | the stored record, or all zeroes when none is stored |
| `PlayerStats.Record` | frontend/src/utils/index.ts:278-282 | one more game, one more win exactly when won, and the distance, boosts and prize added to their totals |
| `PlayerStats.UpdatePlayerStats` | frontend/src/utils/index.ts:270-286 | the wallet's item now holds the old record plus the game; every other item is unchanged |
| `PlayerStats.UpdateKeepsSane` | frontend/src/utils/index.ts:278-279 | wins never exceed games and totals stay non-negative |
| `PlayerStats.ClaimResult` | frontend/src/hooks/useGame.ts:270-277 | the recorded result is a win at the player's position with the pool as prize; boosts used plus boosts left make three |
| `PlayerStats.ClaimResultSane` | frontend/src/hooks/useGame.ts:270-277 | for a player the program can hold, the result has no negative field and at most three boosts |
| `PlayerStats.ReplayCounts` | frontend/src/utils/index.ts:278-282 | after a history of games the record has counted every game, every win, all distance, all boosts and all prizes |
| `PlayerStats.ReplayLeavesOthers` | frontend/src/utils/index.ts:285 | recording games for one wallet never changes another wallet's record |

## Left out

- Anchor account plumbing is not modelled: account validation, discriminators, signer checks and rent. Account size is modelled in `AccountSize` only.
- The system-program transfer is not modelled as a cross-program call. The model keeps only its effect: the lamports move, and an underfunded payer is an error with nothing changed. A payer that is the game account itself is refused (`InvalidArgument`), since the system program does not debit an account that carries data.
- The unused rent computation in `claim_prize` and all `msg!` logging are left out. They have no effect on state.
- A failure to read the clock sysvar is left out. The clock is an input.
- Randomness quality is not claimed. The seed is a function of its inputs, and only the range of the roll is proved.
- Integer overflow is modelled as a panic, which assumes overflow checks are on (Anchor's default release profile). With wrapping arithmetic instead, a position near 255 would wrap to a small value rather than abort.
- Transaction fees are not modelled. A failed transaction leaves every balance as it was, and a step preserves the sum of lamports, only because the fee payer's fee is outside the model.
- The client view of a game (`ClientTypes.View`) is an assumed decoding of the on-chain account. The game hook's `fetchGameState` builds a mock state instead (frontend/src/hooks/useGame.ts:84-109), and Anchor decodes the phase as an object such as `{ waitingForPlayers: {} }` (race-contract/tests/race-contract.ts:60), not as the enum string the client types declare.
- Lamport balances are unbounded, so a credit never overflows u64. The ledger's total supply fits in a u64.
- `performance.ts` is not part of this model. Its whole body sits inside a block comment, so it is dead code.
- Parts of the game hook other than the five derived predicates are left out: the mock program, mock transactions, polling and a fragment that does not compile. They are I/O or timers.
- These utilities are left out:
  - `ConnectionManager` and `checkNetworkHealth`: network I/O.
  - `LocalStorage` read and write failures, `shareOnTwitter` and `sleep`: browser I/O.
  - `animateValue`: timers.
  - `formatSOL`, `getProgressPercentage` and the `winRate` quotient: floating point.
  - `isValidPublicKey`: a foreign library call.
- The React components are user interface only and are left out.
- Public keys are shown through base58 `toString()`. The display helpers take the key's text as given.
- `Display.SliceFront` and `Display.SliceBack` count characters as code points, while JavaScript's `slice` counts UTF-16 units. The two agree on the ASCII text of base58 keys.
- `ErrorMessages.ErrorNameMessage` covers only a message that is exactly a code's name. A message containing several table keys shows the first key's sentence in table order, which `ErrorMessages.ShownWhenFirst` states.
- JavaScript numbers are modelled as unbounded integers. This ignores floating-point rounding above 2^53 and exponent notation from 10^21 on.
- `Display.TimeElapsed`: the contract states only the text under one minute. The minutes text is stated through `Display.SplitElapsed`.
- `PlayerStats.UpdatePlayerStats`: `winRate` is not modelled, because it is a floating-point quotient.
- `PlayerStats.ClaimResult`: the boost count uses the program's 3. The client reads it from a configuration setting whose default is 3.
- `ErrorMessages.ParseAnchorError`: only string-valued fields are modelled. A non-string truthy value in `errorMessage` or `message` is treated as absent.
- `ClientGuards.CanJoin`: the player cap is a parameter. The client reads it from configuration, default 5. The refinement to `join_race` is an if-and-only-if only at 5, and one direction holds up to 5.

## Findings

| source | as written | input that shows it | evidently intended | confidence | as-written member | corrected member |
|---|---|---|---|---|---|---|
| race-contract/programs/race-contract/src/lib.rs:198 | the game account is allocated `8 + size_of::<Game>()` bytes. That is 128: the in-memory struct is 115 bytes padded to 120. Anchor writes the game back in its serialized form, which takes 71 + 35 per player bytes | a new game and two funded joins. After the second join the game needs 141 bytes, so the write-back fails and the join aborts. The race can never start | room for the serialized game with a full roster and a winner: 8 + 32 + 8 + 1 + 8 + 1 + 4 + 35 × 5 + 8 + 33 = 278 bytes | high; not executed | `AccountSize.DeclaredSpaceNeverStarts` | `AccountSize.CorrectedSpaceAlwaysFits` |
