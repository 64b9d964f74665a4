/**
 * The frontend's display helpers: shortened keys, player icons, phase labels
 * and the "time ago" text.
 *
 * JavaScript strings are sequences of UTF-16 code units and Dafny strings are
 * sequences of Unicode scalar values; for the ASCII text of base58 keys the two
 * coincide.
 */
module Display {
  import opened Common
  import opened RaceTypes
  import opened Numerals
  import opened ClientTypes

  const ELLIPSIS: string := "..."

  /** `s.slice(0, n)`: at most the first `n` characters. */
  function SliceFront(s: string, n: nat): (r: string)
    ensures |r| == if n <= |s| then n else |s|
    ensures r <= s
  {
    if n <= |s| then s[..n] else s
  }

  /** `s.slice(-n)` for `n > 0`: at most the last `n` characters. */
  function SliceBack(s: string, n: nat): (r: string)
    requires n > 0
    ensures |r| == if n <= |s| then n else |s|
    ensures r == s[|s| - |r|..]
  {
    if n <= |s| then s[|s| - n..] else s
  }

  /** First `n` characters, an ellipsis, last `n` characters. */
  function Abbreviate(key: string, n: nat): (r: string)
    requires n > 0
    ensures n <= |key| ==> |r| == 2 * n + 3
    ensures n <= |key| ==> r[..n] == key[..n] && r[n..n + 3] == ELLIPSIS && r[n + 3..] == key[|key| - n..]
    ensures |key| < n ==> r == key + ELLIPSIS + key
  {
    SliceFront(key, n) + ELLIPSIS + SliceBack(key, n)
  }

  /** `formatPubkey`: first 4 + "..." + last 4; a shorter key appears twice around the ellipsis. */
  function FormatPubkey(key: string): (r: string)
    ensures 4 <= |key| ==> |r| == 11 && r[..4] == key[..4] && r[4..7] == ELLIPSIS && r[7..] == key[|key| - 4..]
    ensures |key| < 4 ==> r == key + ELLIPSIS + key
  {
    Abbreviate(key, 4)
  }

  /** `formatPubkeyLong`: first 8 + "..." + last 8. */
  function FormatPubkeyLong(key: string): (r: string)
    ensures 8 <= |key| ==> |r| == 19 && r[..8] == key[..8] && r[8..11] == ELLIPSIS && r[11..] == key[|key| - 8..]
    ensures |key| < 8 ==> r == key + ELLIPSIS + key
  {
    Abbreviate(key, 8)
  }

  /** The long form shows everything the short form shows: it begins and ends the same way. */
  lemma LongFormExtendsShort(key: string)
    requires 8 <= |key|
    ensures FormatPubkeyLong(key)[..4] == FormatPubkey(key)[..4]
    ensures FormatPubkeyLong(key)[15..] == FormatPubkey(key)[7..]
  {
    var l := FormatPubkeyLong(key);
    assert l[..4] == l[..8][..4];
    assert l[15..] == l[11..][4..];
    assert key[|key| - 8..][4..] == key[|key| - 4..];
  }

  /** Raccoon, car, truck, scooter, bike. */
  const ICONS: seq<string> := ["\U{1F99D}", "\U{1F697}", "\U{1F69A}", "\U{1F6F5}", "\U{1F6B2}"]

  /** A multiple of a positive `b` strictly between `-b` and `b` is zero. */
  lemma SmallMultiple(d: int, b: int)
    requires b > 0 && -b < d * b < b
    ensures d == 0
  {
  }

  /** The Euclidean remainder is the only one in `[0, b)`. */
  lemma ModUnique(a: int, b: int, k: int, r: int)
    requires b > 0 && 0 <= r < b && a == k * b + r
    ensures a % b == r
  {
    var q, m := a / b, a % b;
    assert a == q * b + m;
    assert (q - k) * b == r - m;
    SmallMultiple(q - k, b);
  }

  /** JavaScript's `%`: truncates toward zero, so the remainder takes the sign of `a`. */
  function JsRemainder(a: int, b: int): (r: int)
    requires b > 0
    ensures a >= 0 ==> r == a % b
    ensures a < 0 ==> r == -((-a) % b)
    ensures a < 0 ==> -b < r <= 0 && (r == 0 <==> a % b == 0)
  {
    if a >= 0 then a % b
    else
      var q, m := (-a) / b, (-a) % b;
      if m == 0 then
        ModUnique(a, b, -q, 0);
        0
      else
        ModUnique(a, b, -q - 1, b - m);
        -m
  }

  /**
   * `getPlayerIcon`: `icons[index % 5]`. A negative index that is not a
   * multiple of 5 gives a negative remainder, and the lookup is `undefined`
   * (here `None`).
   */
  function PlayerIcon(index: int): (r: Option<string>)
    ensures index >= 0 ==> r == Some(ICONS[index % |ICONS|])
    ensures r.Some? <==> index >= 0 || index % |ICONS| == 0
    ensures index % |ICONS| == 0 ==> r == Some(ICONS[0])
    ensures r.Some? ==> r.value in ICONS
  {
    var k := JsRemainder(index, |ICONS|);
    if 0 <= k then Some(ICONS[k]) else None
  }

  /** Icons repeat with period five over the non-negative indices, and the first five are distinct. */
  lemma PlayerIconPeriodic(index: int)
    requires index >= 0
    ensures PlayerIcon(index + |ICONS|) == PlayerIcon(index)
    ensures index < |ICONS| ==> forall j :: 0 <= j < index ==> PlayerIcon(j) != PlayerIcon(index)
  {
  }

  const UNKNOWN_STATE: string := "Unknown"

  /** `formatGameState`: the three phase names to their labels, anything else to "Unknown". */
  function FormatGameState(state: string): (r: string)
    ensures r in {"Waiting for Players", "Race in Progress", "Race Finished", UNKNOWN_STATE}
    ensures state == WAITING_LABEL ==> r == "Waiting for Players"
    ensures state == IN_PROGRESS_LABEL ==> r == "Race in Progress"
    ensures state == FINISHED_LABEL ==> r == "Race Finished"
    ensures r == UNKNOWN_STATE <==> state !in {WAITING_LABEL, IN_PROGRESS_LABEL, FINISHED_LABEL}
  {
    if state == WAITING_LABEL then "Waiting for Players"
    else if state == IN_PROGRESS_LABEL then "Race in Progress"
    else if state == FINISHED_LABEL then "Race Finished"
    else UNKNOWN_STATE
  }

  /** Every phase of the program gets its own label, never "Unknown". */
  lemma PhaseLabelsDistinct(s: GameState, t: GameState)
    ensures FormatGameState(StateLabel(s)) != UNKNOWN_STATE
    ensures FormatGameState(StateLabel(s)) == FormatGameState(StateLabel(t)) ==> s == t
  {
  }

  /** The parts of the "time ago" text. */
  datatype Elapsed = MinutesAgo(minutes: int, seconds: int) | SecondsAgo(seconds: int)

  /**
   * `seconds = floor(elapsed / 1000)`, `minutes = floor(seconds / 60)`; from
   * one whole minute on, the text shows minutes and the seconds left over.
   * An elapsed time in the future (negative) shows negative seconds.
   */
  function SplitElapsed(elapsed: int): (r: Elapsed)
    ensures r.MinutesAgo? <==> elapsed >= 60_000
    ensures r.MinutesAgo? ==>
      && r.minutes >= 1 && 0 <= r.seconds < 60
      && 1000 * (60 * r.minutes + r.seconds) <= elapsed < 1000 * (60 * r.minutes + r.seconds + 1)
    ensures r.SecondsAgo? ==> r.seconds < 60 && 1000 * r.seconds <= elapsed < 1000 * (r.seconds + 1)
  {
    // Dafny's division by a positive number rounds down, as Math.floor does.
    var seconds := elapsed / 1000;
    var minutes := seconds / 60;
    if minutes > 0 then MinutesAgo(minutes, JsRemainder(seconds, 60)) else SecondsAgo(seconds)
  }

  function RenderElapsed(e: Elapsed): string
  {
    match e
    case MinutesAgo(m, s) => IntToString(m) + "m " + IntToString(s) + "s ago"
    case SecondsAgo(s) => IntToString(s) + "s ago"
  }

  /** `getTimeElapsed`, with the clock reading `Date.now()` as a parameter. */
  function TimeElapsed(now: int, timestamp: int): (r: string)
    ensures now - timestamp < 60_000 ==>
      r == IntToString((now - timestamp) / 1000) + "s ago"
  {
    RenderElapsed(SplitElapsed(now - timestamp))
  }
}
