/** The mu-law decoder of the panel firmware (ulaw_to_pcm in audio.c), as arithmetic and on machine words. */
module Ulaw {
  import Rtp

  type Byte = Rtp.Byte

  function Shifted(t: int, bits: nat): int
    decreases bits
  {
    if bits == 0 then t else Shifted(2 * t, bits - 1)
  }

  /** ulaw_to_pcm; the complement, masks and shifts of one byte written as arithmetic. */
  function Pcm(u: Byte): int {
    var v := 255 - u;
    var t := Shifted(v % 16 * 8 + 132, v / 16 % 8);
    if v >= 128 then 132 - t else t - 132
  }

  function ShiftLeft(w: bv16, bits: nat): bv16
    decreases bits
  {
    if bits == 0 then w else ShiftLeft(w << 1, bits - 1)
  }

  lemma Complement(u: bv8)
    ensures (!u) as int == 255 - u as int
  {
  }

  lemma Sign(v: bv8)
    ensures v & 0x80 != 0 <==> v as int >= 128
  {
  }

  lemma MaskLast(v: bv8)
    ensures (v & 0x70) >> 4 == (v >> 4) & 0x07
  {
  }

  lemma HighBits(v: bv8)
    ensures (v >> 4) as int == v as int / 16
  {
  }

  lemma Exponent(v: bv8)
    ensures ((v & 0x70) >> 4) as int == v as int / 16 % 8
  {
    MaskLast(v);
    HighBits(v);
    LowThree(v >> 4);
  }

  lemma LowThree(x: bv8)
    ensures (x & 0x07) as int == x as int % 8
  {
  }

  lemma Nibble(v: bv8)
    ensures (v & 0x0f) as int == v as int % 16 && v & 0x0f < 16
  {
  }

  lemma Biased(m: bv8)
    requires m < 16
    ensures ((m as bv16 << 3) + 0x84) as int == m as int * 8 + 132
  {
  }

  lemma ShiftOne(w: bv16, i: int)
    requires i == w as int < 0x8000
    ensures (w << 1) as int == 2 * i
  {
  }

  lemma {:induction false} ShiftGrows(i: int, bits: nat)
    requires i >= 0
    ensures Shifted(i, bits) >= i
    decreases bits
  {
    if bits > 0 { ShiftGrows(2 * i, bits - 1); }
  }

  lemma {:induction false} ShiftIs(w: bv16, bits: nat, i: int)
    requires w as int == i && Shifted(i, bits) < 0x1_0000
    ensures ShiftLeft(w, bits) as int == Shifted(i, bits)
    decreases bits
  {
    if bits > 0 {
      ShiftGrows(2 * i, bits - 1);
      ShiftOne(w, i);
      ShiftIs(w << 1, bits - 1, 2 * i);
    }
  }

  /** A byte and seven shifts fit sixteen bits. */
  lemma {:induction false} ShiftFits(i: int, bits: nat)
    requires bits <= 7 && 0 <= i < [0x8000, 0x4000, 0x2000, 0x1000, 0x800, 0x400, 0x200, 0x100][bits]
    ensures Shifted(i, bits) < 0x8000
    decreases bits
  {
    if bits > 0 { ShiftFits(2 * i, bits - 1); }
  }

  function Magnitude(v: bv8): bv16 { ShiftLeft(((v & 0x0f) as bv16 << 3) + 0x84, ((v & 0x70) >> 4) as int) }

  lemma MagnitudeIs(v: bv8)
    ensures Magnitude(v) as int == Shifted(v as int % 16 * 8 + 132, v as int / 16 % 8)
  {
    Nibble(v);
    Biased(v & 0x0f);
    Exponent(v);
    var i, bits := v as int % 16 * 8 + 132, v as int / 16 % 8;
    ShiftFits(i, bits);
    ShiftIs(((v & 0x0f) as bv16 << 3) + 0x84, bits, i);
  }

  lemma PcmOf(v: Byte, t: int)
    requires t == Shifted(v % 16 * 8 + 132, v / 16 % 8)
    ensures Pcm(255 - v) == if v >= 128 then 132 - t else t - 132
  {
  }

  /** The decoder on the machine words of the source: complement, mantissa, bias, exponent and sign. */
  lemma UlawBits(u: bv8)
    ensures var v := !u; var t := Magnitude(v) as int;
            Pcm(u as int) == if v & 0x80 != 0 then 0x84 - t else t - 0x84
  {
    Complement(u);
    Sign(!u);
    MagnitudeIs(!u);
    PcmOf((!u) as int, Magnitude(!u) as int);
  }
}
