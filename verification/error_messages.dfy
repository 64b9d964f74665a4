/**
 * How the frontend turns a failed transaction into a sentence for the player.
 *
 * A thrown value is reduced to the two fields the frontend reads: the
 * `errorMessage` of an Anchor error object (`error.error.errorMessage`) and the
 * `message` of an ordinary `Error`. A missing field and a field that is not a
 * string are both `None`.
 */
module ErrorMessages {
  import opened Common
  import opened RaceTypes

  datatype ThrownError = ThrownError(errorMessage: Option<string>, message: Option<string>)

  /** JavaScript truthiness of an optional string: present and non-empty. */
  predicate Truthy(s: Option<string>)
  {
    s.Some? && |s.value| > 0
  }

  /** `p` occurs in `s` starting at index `i`. */
  predicate MatchAt(s: string, p: string, i: int)
  {
    0 <= i <= |s| - |p| && s[i..i + |p|] == p
  }

  /** `s.includes(p)`. */
  predicate Contains(s: string, p: string)
  {
    exists i | 0 <= i <= |s| - |p| :: MatchAt(s, p, i)
  }

  /** Every character of an occurring pattern is a character of the string. */
  lemma ContainsHasChars(s: string, p: string, k: nat)
    requires Contains(s, p) && k < |p|
    ensures p[k] in s
  {
    var i :| 0 <= i <= |s| - |p| && MatchAt(s, p, i);
    assert s[i..i + |p|][k] == s[i + k];
  }

  /** A pattern with a character the string lacks does not occur in it. */
  lemma MissingChar(s: string, p: string, k: nat)
    requires k < |p| && p[k] !in s
    ensures !Contains(s, p)
  {
    if Contains(s, p) {
      ContainsHasChars(s, p, k);
    }
  }

  lemma ContainsItself(s: string)
    ensures Contains(s, s)
  {
    assert MatchAt(s, s, 0);
  }

  /** The substrings looked for in `error.message`, in the order they are tried, with the text shown for each. */
  const MESSAGE_TABLE: seq<(string, string)> := [
    ("insufficient funds", "Insufficient funds to complete transaction"),
    ("GameNotJoinable", "This game is not accepting new players"),
    ("GameFull", "This game is full (maximum 5 players)"),
    ("AlreadyJoined", "You have already joined this game"),
    ("GameNotInProgress", "Game is not currently in progress"),
    ("PlayerNotFound", "Player not found in this game"),
    ("NoBoostsRemaining", "No boosts remaining"),
    ("NotWinner", "Only the winner can claim the prize")
  ]

  const UNKNOWN_ERROR: string := "An unknown error occurred"

  /** The text of the first entry from `i` on whose pattern occurs in `msg`. */
  function FirstMatchFrom(msg: string, i: nat): (r: Option<string>)
    requires i <= |MESSAGE_TABLE|
    ensures r.None? <==> forall j :: i <= j < |MESSAGE_TABLE| ==> !Contains(msg, MESSAGE_TABLE[j].0)
    ensures r.Some? ==>
      exists j :: i <= j < |MESSAGE_TABLE| && Contains(msg, MESSAGE_TABLE[j].0) && r.value == MESSAGE_TABLE[j].1
                  && forall l :: i <= l < j ==> !Contains(msg, MESSAGE_TABLE[l].0)
    decreases |MESSAGE_TABLE| - i
  {
    if i == |MESSAGE_TABLE| then None
    else if Contains(msg, MESSAGE_TABLE[i].0) then Some(MESSAGE_TABLE[i].1)
    else FirstMatchFrom(msg, i + 1)
  }

  /** `parseAnchorError`. */
  function ParseAnchorError(e: Option<ThrownError>): (r: string)
    ensures e.Some? && Truthy(e.value.errorMessage) ==> r == e.value.errorMessage.value
    ensures e.None? || (!Truthy(e.value.errorMessage) && !Truthy(e.value.message)) ==> r == UNKNOWN_ERROR
    ensures e.Some? && !Truthy(e.value.errorMessage) && Truthy(e.value.message) ==>
      var msg := e.value.message.value;
      if forall j :: 0 <= j < |MESSAGE_TABLE| ==> !Contains(msg, MESSAGE_TABLE[j].0) then r == msg
      else exists j :: 0 <= j < |MESSAGE_TABLE| && Contains(msg, MESSAGE_TABLE[j].0) && r == MESSAGE_TABLE[j].1
                       && forall l :: 0 <= l < j ==> !Contains(msg, MESSAGE_TABLE[l].0)
  {
    if e.Some? && Truthy(e.value.errorMessage) then e.value.errorMessage.value
    else if e.Some? && Truthy(e.value.message) then
      var msg := e.value.message.value;
      match FirstMatchFrom(msg, 0)
      case Some(text) => text
      case None => msg
    else UNKNOWN_ERROR
  }

  /** The `#[msg]` text the program attaches to each error code. */
  function ProgramMessage(c: GameError): (m: string)
    ensures |m| > 0
  {
    match c
    case GameNotJoinable => "Game is not accepting new players"
    case GameFull => "Game is full (max 5 players)"
    case AlreadyJoined => "Player already joined this game"
    case GameNotInProgress => "Game is not in progress"
    case PlayerNotFound => "Player not found in this game"
    case PlayerAlreadyFinished => "Player already finished the race"
    case NoBoostsRemaining => "No boosts remaining"
    case GameNotFinished => "Game not finished yet"
    case NotWinner => "Only the winner can claim the prize"
    case NoPrizeToClaimX => "No prize to claim"
  }

  /** The text the frontend shows for a bare error name: its table entry, or the name itself. */
  function ShownForName(c: GameError): string
  {
    match c
    case GameNotJoinable => MESSAGE_TABLE[1].1
    case GameFull => MESSAGE_TABLE[2].1
    case AlreadyJoined => MESSAGE_TABLE[3].1
    case GameNotInProgress => MESSAGE_TABLE[4].1
    case PlayerNotFound => MESSAGE_TABLE[5].1
    case NoBoostsRemaining => MESSAGE_TABLE[6].1
    case NotWinner => MESSAGE_TABLE[7].1
    case _ => ErrorName(c)
  }

  /** A message whose first occurring pattern is entry `j` shows that entry's text. */
  lemma ShownWhenFirst(msg: string, j: nat)
    requires j < |MESSAGE_TABLE| && Contains(msg, MESSAGE_TABLE[j].0)
    requires forall l :: 0 <= l < j ==> !Contains(msg, MESSAGE_TABLE[l].0)
    ensures ParseAnchorError(Some(ThrownError(None, Some(msg)))) == MESSAGE_TABLE[j].1
  {
    var r := FirstMatchFrom(msg, 0);
    var k :| 0 <= k < |MESSAGE_TABLE| && Contains(msg, MESSAGE_TABLE[k].0) && r.value == MESSAGE_TABLE[k].1
             && forall l :: 0 <= l < k ==> !Contains(msg, MESSAGE_TABLE[l].0);
    assert k == j;
  }

  /** A non-empty message in which no pattern occurs is shown as it is. */
  lemma ShownWhenNone(msg: string)
    requires |msg| > 0
    requires forall l :: 0 <= l < |MESSAGE_TABLE| ==> !Contains(msg, MESSAGE_TABLE[l].0)
    ensures ParseAnchorError(Some(ThrownError(None, Some(msg)))) == msg
  {
  }

  /** An Anchor error object always shows the program's own message for its code. */
  lemma AnchorErrorShowsProgramMessage(c: GameError, message: Option<string>)
    ensures ParseAnchorError(Some(ThrownError(Some(ProgramMessage(c)), message))) == ProgramMessage(c)
  {
  }

  /**
   * A message that is just an error name shows that name's table entry:
   * no earlier pattern occurs in it. The three codes without an entry
   * (`PlayerAlreadyFinished`, `GameNotFinished`, `NoPrizeToClaimX`) match
   * no pattern and are shown as they are. Patterns longer than the name
   * cannot occur in it; for the others a character the name lacks is named.
   */
  lemma ErrorNameMessage(c: GameError)
    ensures ParseAnchorError(Some(ThrownError(None, Some(ErrorName(c))))) == ShownForName(c)
  {
    match c
    case GameNotJoinable => GameNotJoinableMessage();
    case GameFull => GameFullMessage();
    case AlreadyJoined => AlreadyJoinedMessage();
    case GameNotInProgress => GameNotInProgressMessage();
    case PlayerNotFound => PlayerNotFoundMessage();
    case PlayerAlreadyFinished => PlayerAlreadyFinishedMessage();
    case NoBoostsRemaining => NoBoostsRemainingMessage();
    case GameNotFinished => GameNotFinishedMessage();
    case NotWinner => NotWinnerMessage();
    case NoPrizeToClaimX => NoPrizeToClaimXMessage();
  }

  lemma GameNotJoinableMessage()
    ensures ParseAnchorError(Some(ThrownError(None, Some(ErrorName(GameNotJoinable))))) == ShownForName(GameNotJoinable)
  {
    var s := ErrorName(GameNotJoinable);
    ContainsItself(s);
    ShownWhenFirst(s, 1);
  }

  lemma GameFullMessage()
    ensures ParseAnchorError(Some(ThrownError(None, Some(ErrorName(GameFull))))) == ShownForName(GameFull)
  {
    var s := ErrorName(GameFull);
    ContainsItself(s);
    ShownWhenFirst(s, 2);
  }

  lemma AlreadyJoinedMessage()
    ensures ParseAnchorError(Some(ThrownError(None, Some(ErrorName(AlreadyJoined))))) == ShownForName(AlreadyJoined)
  {
    var s := ErrorName(AlreadyJoined);
    var t := MESSAGE_TABLE;
    MissingChar(s, t[2].0, 0);
    ContainsItself(s);
    ShownWhenFirst(s, 3);
  }

  lemma GameNotInProgressMessage()
    ensures ParseAnchorError(Some(ThrownError(None, Some(ErrorName(GameNotInProgress))))) == ShownForName(GameNotInProgress)
  {
    var s := ErrorName(GameNotInProgress);
    var t := MESSAGE_TABLE;
    MissingChar(s, t[1].0, 7);
    MissingChar(s, t[2].0, 4);
    MissingChar(s, t[3].0, 0);
    ContainsItself(s);
    ShownWhenFirst(s, 4);
  }

  lemma PlayerNotFoundMessage()
    ensures ParseAnchorError(Some(ThrownError(None, Some(ErrorName(PlayerNotFound))))) == ShownForName(PlayerNotFound)
  {
    var s := ErrorName(PlayerNotFound);
    var t := MESSAGE_TABLE;
    MissingChar(s, t[2].0, 0);
    MissingChar(s, t[3].0, 0);
    ContainsItself(s);
    ShownWhenFirst(s, 5);
  }

  lemma PlayerAlreadyFinishedMessage()
    ensures ParseAnchorError(Some(ThrownError(None, Some(ErrorName(PlayerAlreadyFinished))))) == ShownForName(PlayerAlreadyFinished)
  {
    var s := ErrorName(PlayerAlreadyFinished);
    var t := MESSAGE_TABLE;
    MissingChar(s, t[0].0, 3);
    MissingChar(s, t[1].0, 0);
    MissingChar(s, t[2].0, 0);
    MissingChar(s, t[3].0, 7);
    MissingChar(s, t[4].0, 0);
    MissingChar(s, t[5].0, 6);
    MissingChar(s, t[6].0, 0);
    MissingChar(s, t[7].0, 0);
    ShownWhenNone(s);
  }

  lemma NoBoostsRemainingMessage()
    ensures ParseAnchorError(Some(ThrownError(None, Some(ErrorName(NoBoostsRemaining))))) == ShownForName(NoBoostsRemaining)
  {
    var s := ErrorName(NoBoostsRemaining);
    var t := MESSAGE_TABLE;
    MissingChar(s, t[1].0, 0);
    MissingChar(s, t[2].0, 0);
    MissingChar(s, t[3].0, 0);
    MissingChar(s, t[4].0, 0);
    MissingChar(s, t[5].0, 0);
    ContainsItself(s);
    ShownWhenFirst(s, 6);
  }

  lemma GameNotFinishedMessage()
    ensures ParseAnchorError(Some(ThrownError(None, Some(ErrorName(GameNotFinished))))) == ShownForName(GameNotFinished)
  {
    var s := ErrorName(GameNotFinished);
    var t := MESSAGE_TABLE;
    MissingChar(s, t[1].0, 7);
    MissingChar(s, t[2].0, 5);
    MissingChar(s, t[3].0, 0);
    MissingChar(s, t[5].0, 0);
    MissingChar(s, t[7].0, 3);
    ShownWhenNone(s);
  }

  lemma NotWinnerMessage()
    ensures ParseAnchorError(Some(ThrownError(None, Some(ErrorName(NotWinner))))) == ShownForName(NotWinner)
  {
    var s := ErrorName(NotWinner);
    var t := MESSAGE_TABLE;
    MissingChar(s, t[2].0, 0);
    ContainsItself(s);
    ShownWhenFirst(s, 7);
  }

  lemma NoPrizeToClaimXMessage()
    ensures ParseAnchorError(Some(ThrownError(None, Some(ErrorName(NoPrizeToClaimX))))) == ShownForName(NoPrizeToClaimX)
  {
    var s := ErrorName(NoPrizeToClaimX);
    var t := MESSAGE_TABLE;
    MissingChar(s, t[1].0, 0);
    MissingChar(s, t[2].0, 0);
    MissingChar(s, t[3].0, 0);
    MissingChar(s, t[5].0, 3);
    MissingChar(s, t[7].0, 2);
    ShownWhenNone(s);
  }

  /** Different codes named in a message never produce the same text. */
  lemma ShownForNameInjective(c: GameError, d: GameError)
    requires ShownForName(c) == ShownForName(d)
    ensures c == d
  {
  }
}
