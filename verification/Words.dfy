/** 32-bit words and the bytes they are stored as, the low one first. */
module Words {
  type Word = w: int | 0 <= w < 0x1_0000_0000

  /** The bytes of a word, the low one first. */
  function ByteOf(w: Word, k: nat): nat {
    if k == 0 then w % 256
    else if k == 1 then (w / 0x100) % 256
    else if k == 2 then (w / 0x1_0000) % 256
    else (w / 0x100_0000) % 256
  }

  /** The word with its `k` low bytes zero. */
  function ClearLow(w: Word, k: nat): Word {
    if k == 0 then w
    else if k == 1 then w - w % 0x100
    else if k == 2 then w - w % 0x1_0000
    else if k == 3 then w - w % 0x100_0000
    else 0
  }

  function Assembled(b0: nat, b1: nat, b2: nat, b3: nat): nat {
    b0 + 0x100 * b1 + 0x1_0000 * b2 + 0x100_0000 * b3
  }

  lemma BytesAssemble(w: Word)
    ensures w == Assembled(ByteOf(w, 0), ByteOf(w, 1), ByteOf(w, 2), ByteOf(w, 3))
    ensures ByteOf(w, 0) < 256 && ByteOf(w, 1) < 256 && ByteOf(w, 2) < 256 && ByteOf(w, 3) < 256
  {
    LastByte(w);
    LastByte(w / 0x100);
    LastByte(w / 0x1_0000);
    DivTwice(w, 0x100);
    DivTwice(w, 0x1_0000);
    TopByte(w);
  }

  lemma LastByte(w: nat)
    ensures w == 0x100 * (w / 0x100) + w % 0x100 && w % 0x100 < 256
  {
  }

  lemma DivTwice(w: nat, unit: nat)
    requires unit == 0x100 || unit == 0x1_0000
    ensures w / unit / 0x100 == w / (unit * 0x100)
  {
    var h, l := w / unit, w % unit;
    LastByte(h);
    assert w == unit * h + l;
    if unit == 0x100 {
      HighPart(w, 0x1_0000, l + 0x100 * (h % 0x100), h / 0x100);
    } else {
      HighPart(w, 0x100_0000, l + 0x1_0000 * (h % 0x100), h / 0x100);
    }
  }

  lemma TopByte(w: Word)
    ensures (w / 0x100_0000) % 256 == w / 0x100_0000 < 256
  {
  }

  lemma AssembledBytes(b0: nat, b1: nat, b2: nat, b3: nat)
    requires b0 < 256 && b1 < 256 && b2 < 256 && b3 < 256
    ensures var w: Word := Assembled(b0, b1, b2, b3);
            ByteOf(w, 0) == b0 && ByteOf(w, 1) == b1 && ByteOf(w, 2) == b2 && ByteOf(w, 3) == b3
  {
    var w := Assembled(b0, b1, b2, b3);
    HighPart(w, 0x100, b0, b1 + 0x100 * b2 + 0x1_0000 * b3);
    HighPart(w, 0x1_0000, b0 + 0x100 * b1, b2 + 0x100 * b3);
    HighPart(w, 0x100_0000, b0 + 0x100 * b1 + 0x1_0000 * b2, b3);
    HighPart(b1 + 0x100 * b2 + 0x1_0000 * b3, 0x100, b1, b2 + 0x100 * b3);
    HighPart(b2 + 0x100 * b3, 0x100, b2, b3);
  }

  lemma HighPart(w: nat, unit: nat, low: nat, high: nat)
    requires unit == 0x100 || unit == 0x1_0000 || unit == 0x100_0000
    requires w == low + unit * high && low < unit
    ensures w / unit == high && w % unit == low
  {
  }

  lemma LowPart(b0: nat, b1: nat, b2: nat, b3: nat)
    requires b0 < 256 && b1 < 256 && b2 < 256 && b3 < 256
    ensures var w := Assembled(b0, b1, b2, b3);
            && w % 0x100 == b0 && w % 0x1_0000 == b0 + 0x100 * b1
            && w % 0x100_0000 == b0 + 0x100 * b1 + 0x1_0000 * b2
  {
    var w := Assembled(b0, b1, b2, b3);
    HighPart(w, 0x100, b0, b1 + 0x100 * b2 + 0x1_0000 * b3);
    HighPart(w, 0x1_0000, b0 + 0x100 * b1, b2 + 0x100 * b3);
    HighPart(w, 0x100_0000, b0 + 0x100 * b1 + 0x1_0000 * b2, b3);
  }

  lemma ClearLowIs(w: Word, k: nat)
    requires k < 4
    ensures ClearLow(w, k) == Assembled(if k > 0 then 0 else ByteOf(w, 0), if k > 1 then 0 else ByteOf(w, 1),
                                        if k > 2 then 0 else ByteOf(w, 2), ByteOf(w, 3))
  {
    BytesAssemble(w);
    LowPart(ByteOf(w, 0), ByteOf(w, 1), ByteOf(w, 2), ByteOf(w, 3));
    hide ByteOf;
  }

  /** Clearing the low bytes makes them zero and leaves the others. */
  lemma ClearLowBytes(w: Word, k: nat, j: nat)
    requires k < 4 && j < 4
    ensures ByteOf(ClearLow(w, k), j) == if j < k then 0 else ByteOf(w, j)
  {
    hide ByteOf, ClearLow, Assembled;
    ClearLowIs(w, k);
    BytesAssemble(w);
    AssembledBytes(if k > 0 then 0 else ByteOf(w, 0), if k > 1 then 0 else ByteOf(w, 1),
                   if k > 2 then 0 else ByteOf(w, 2), ByteOf(w, 3));
  }
}
