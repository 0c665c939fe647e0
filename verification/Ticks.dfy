/** 32-bit tick arithmetic.  The tick counter is a machine word that wraps; absolute time is the
    natural number `epoch * W + tick`, where `epoch` counts the wraps so far. */
module Ticks {
  const W: int := 0x1_0000_0000

  type Tick = t: int | 0 <= t < 0x1_0000_0000

  /** The largest word: the end marker of every list, and the block time that means "forever". */
  const MAX_DELAY: Tick := 0xFFFF_FFFF

  /** Unsigned word addition. */
  function Add(a: Tick, b: Tick): Tick {
    if a + b < 0x1_0000_0000 then a + b else a + b - 0x1_0000_0000
  }

  /** Unsigned word subtraction. */
  function Sub(a: Tick, b: Tick): Tick {
    if b <= a then a - b else a - b + 0x1_0000_0000
  }

  /** The ticks in so many full turns of the counter. */
  function Turns(epoch: nat): nat {
    if epoch == 0 then 0 else Turns(epoch - 1) + 0x1_0000_0000
  }

  lemma {:induction false} TurnsAre(epoch: nat)
    ensures Turns(epoch) == epoch * W
  {
    if epoch > 0 {
      TurnsAre(epoch - 1);
    }
  }

  /** A later turn begins at least a whole turn later. */
  lemma TurnsOrdered(a: nat, b: nat)
    ensures a < b ==> Turns(a) + W <= Turns(b)
    ensures a + 1 < b ==> Turns(a) + W + W <= Turns(b)
  {
    TurnsAre(a);
    TurnsAre(b);
  }

  /** The absolute instant at which the counter shows `tick` after `epoch` wraps. */
  function At(epoch: nat, tick: Tick): nat {
    Turns(epoch) + tick
  }

  /** An instant as the kernel can record it: the number of wraps and the counter. */
  datatype Instant = Instant(epoch: nat, tick: Tick) {
    function Time(): nat { At(epoch, tick) }
  }

  /** The operations above are arithmetic modulo the word. */
  lemma WordArithmetic(a: Tick, b: Tick)
    ensures Add(a, b) == (a + b) % W && Sub(a, b) == (a - b) % W
  {
  }
}
