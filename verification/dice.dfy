/**
 * The dice of `roll_and_move`. The entropy (clock slot, clock timestamp and
 * the first byte of the roller's key) is an input; only the range of the
 * result is claimed. `seed % 6` has no bias correction, so nothing here says
 * the roll is uniform or unpredictable.
 */
module Dice {
  import opened Common

  /** The clock sysvar fields the roll reads. */
  datatype Clock = Clock(slot: U64, unixTimestamp: I64)

  /**
   * `slot.wrapping_add(key_byte as u64).wrapping_add(unix_timestamp as u64)`:
   * the sum of the three readings modulo 2^64, the timestamp taken as its
   * two's-complement bit pattern.
   */
  function Seed(clock: Clock, keyByte: U8): (r: U64)
    ensures r == (clock.slot + keyByte + clock.unixTimestamp) % U64_LIMIT
  {
    WrappingAddU64(WrappingAddU64(clock.slot, keyByte), I64AsU64(clock.unixTimestamp))
  }

  /** `(seed % 6) + 1`. */
  function Roll(seed: U64): (r: U8)
    ensures 1 <= r <= 6
    ensures (r - 1) % 6 == seed % 6
  {
    seed % 6 + 1
  }

  /** Every face from 1 to 6 is produced by some clock reading, whatever the key byte. */
  lemma EveryFaceReachable(keyByte: U8, face: int)
    requires 1 <= face <= 6
    ensures exists clock: Clock :: Roll(Seed(clock, keyByte)) == face
  {
    var clock := Clock(face - 1 + 6 * 256 - keyByte, 0);
    assert Seed(clock, keyByte) == face - 1 + 6 * 256;
  }
}
