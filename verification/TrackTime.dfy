/** The track time on its way from a command through two 32-bit registers to the control loop. */
module TrackTime {

  const WORD := 0x1_0000_0000
  const LONG := 0x1_0000_0000_0000_0000
  const CLK_100MHZ := 100_000_000

  /** The loop's 64-bit reassembly of the two registers into a track length. */
  function TrackLength(high: nat, low: nat): nat {
    ((high * WORD + low) * 1000 % LONG) / CLK_100MHZ
  }

  /** The two registers. `highReady` and `lowReady` say whether the driver serves each access. */
  class TrackTimeRegisters {
    var high: nat
    var low: nat

    /** Command handler for writing: seconds are scaled by 100e5 and split into two words. A failure at the
        second register leaves the first one written. */
    method Write(value: nat, highReady: bool, lowReady: bool) returns (status: int)
      requires value < 0x1_0000
      modifies this
      ensures status == if !highReady then -1 else if !lowReady then -2 else 0
      ensures status == 0 ==> high < WORD && low < WORD && high * WORD + low == value * 10_000_000
      ensures status == -2 ==> low == old(low) && high == value * 10_000_000 / WORD
      ensures status == -1 ==> high == old(high) && low == old(low)
    {
      var ticks := value * 10_000_000;
      assert ticks / WORD * WORD + ticks % WORD == ticks;
      if !highReady {
        return -1;
      }
      high := ticks / WORD % WORD;
      if !lowReady {
        return -2;
      }
      low := ticks % WORD;
      status := 0;
    }

    /** Command handler for reading: the registers are scaled back. The 16-bit result keeps the low bits. */
    method Read(highReady: bool, lowReady: bool) returns (status: int, value: nat)
      ensures status == if highReady && lowReady then 0 else -1
      ensures status == 0 ==> value == (high * WORD + low) / 10_000_000 % 0x1_0000
    {
      value := 0;
      if !highReady {
        return -1, value;
      }
      if !lowReady {
        return -1, value;
      }
      value := (high * WORD + low) / 10_000_000 % 0x1_0000;
      status := 0;
    }
  }

  /** For every 16-bit value, what is written reads back, and the control loop sees 100 times the value. */
  lemma TrackTimeEndToEnd(v: nat, high: nat, low: nat)
    requires v < 0x1_0000
    requires high < WORD && low < WORD && high * WORD + low == v * 10_000_000
    ensures (high * WORD + low) / 10_000_000 % 0x1_0000 == v
    ensures (high * WORD + low) * 1000 < LONG
    ensures TrackLength(high, low) == 100 * v
  {
    assert (high * WORD + low) * 1000 == 100 * v * CLK_100MHZ;
  }

  /** Write, then read: the value comes back, and the registers left behind give the loop its track length. */
  method RoundTrip(r: TrackTimeRegisters, v: nat) returns (status: int, value: nat)
    requires v < 0x1_0000
    modifies r
    ensures status == 0 && value == v
    ensures TrackLength(r.high, r.low) == 100 * v
  {
    status := r.Write(v, true, true);
    TrackTimeEndToEnd(v, r.high, r.low);
    status, value := r.Read(true, true);
  }
}
