/** c2dec's bit handling (codec2-1.2.0/src/c2dec.c): packing one bit per entry into bytes,
    most significant bit first, and flipping chosen bits of a packed frame. */
module BitPacking {

  // ----- Bits of a byte and of a frame

  /** The bit of weight 2 to the power p. */
  predicate Bit(x: bv8, p: nat)
    requires p < 8
  {
    x & ((1 as bv8) << p) != 0
  }

  /** Bit i of a packed frame: bit 0 is the most significant of byte 0. */
  predicate BitAt(bytes: seq<bv8>, i: nat)
    requires i < 8 * |bytes|
  {
    Bit(bytes[i / 8], 7 - i % 8)
  }

  lemma XorBit(x: bv8, p: nat, q: nat)
    requires p < 8 && q < 8
    ensures Bit(x ^ ((1 as bv8) << p), q) == (Bit(x, q) != (p == q))
  {
    OneHot(x, q);
    if p != q { MasksApart(p, q); }
    XorMasked(x, (1 as bv8) << p, (1 as bv8) << q);
  }

  lemma XorMasked(x: bv8, m: bv8, k: bv8)
    ensures (x ^ m) & k == (x & k) ^ (m & k)
  {}

  lemma MasksApart(p: nat, q: nat)
    requires p < 8 && q < 8 && p != q
    ensures ((1 as bv8) << p) & ((1 as bv8) << q) == 0
  {}

  lemma OneHot(x: bv8, q: nat)
    requires q < 8
    ensures (1 as bv8) << q != 0 && (x & ((1 as bv8) << q) == 0 || x & ((1 as bv8) << q) == (1 as bv8) << q)
    ensures ((1 as bv8) << q) & ((1 as bv8) << q) == (1 as bv8) << q
  {}

  /** Bytes with the same bits are the same. */
  lemma SameBits(a: seq<bv8>, b: seq<bv8>)
    requires |a| == |b| && forall i :: 0 <= i < 8 * |a| ==> BitAt(a, i) == BitAt(b, i)
    ensures a == b
  {
    forall k | 0 <= k < |a| ensures a[k] == b[k] {
      forall p: nat | p < 8 ensures Bit(a[k], p) == Bit(b[k], p) {
        assert BitAt(a, 8 * k + (7 - p)) == BitAt(b, 8 * k + (7 - p));
      }
      SameByte(a[k], b[k]);
    }
  }

  lemma SameByte(x: bv8, y: bv8)
    requires forall p: nat :: p < 8 ==> Bit(x, p) == Bit(y, p)
    ensures x == y
  {
    assert Bit(x, 0) == Bit(y, 0) && Bit(x, 1) == Bit(y, 1) && Bit(x, 2) == Bit(y, 2) && Bit(x, 3) == Bit(y, 3);
    assert Bit(x, 4) == Bit(y, 4) && Bit(x, 5) == Bit(y, 5) && Bit(x, 6) == Bit(y, 6) && Bit(x, 7) == Bit(y, 7);
  }

  // ----- Packing

  function ByteCount(nbit: nat): nat { (nbit + 7) / 8 }

  /** Byte b after the packing loop's first n entries: each entry is or-ed in at its place,
      whatever its value. */
  function PackedByte(chars: seq<bv8>, n: nat, b: nat): bv8
    requires n <= |chars|
  {
    if n == 0 then 0
    else if (n - 1) / 8 == b then PackedByte(chars, n - 1, b) | (chars[n - 1] << (7 - (n - 1) % 8))
    else PackedByte(chars, n - 1, b)
  }

  function Packed(chars: seq<bv8>): (bytes: seq<bv8>)
    ensures |bytes| == ByteCount(|chars|)
  {
    seq(ByteCount(|chars|), b requires 0 <= b < ByteCount(|chars|) => PackedByte(chars, |chars|, b))
  }

  /** What the soft-decision loop packs: a negative value is a one. */
  function HardBits(soft: seq<real>): (r: seq<bv8>)
    ensures |r| == |soft| && forall i :: 0 <= i < |r| ==> r[i] == if soft[i] < 0.0 then 1 else 0
  {
    seq(|soft|, i requires 0 <= i < |soft| => if soft[i] < 0.0 then 1 else 0)
  }

  method PackChars(chars: seq<bv8>, bits: array<bv8>)
    requires bits.Length == ByteCount(|chars|)
    modifies bits
    ensures bits[..] == Packed(chars)
  {
    var bit, byte := 7, 0;
    forall k | 0 <= k < bits.Length { bits[k] := 0; }
    var i := 0;
    while i < |chars|
      invariant 0 <= i <= |chars| && byte == i / 8 && bit == 7 - i % 8
      invariant forall b :: 0 <= b < bits.Length ==> bits[b] == PackedByte(chars, i, b)
    {
      bits[byte] := bits[byte] | (chars[i] << bit);
      bit := bit - 1;
      if bit < 0 {
        bit := 7;
        byte := byte + 1;
      }
      i := i + 1;
    }
  }

  method PackSoft(soft: seq<real>, bits: array<bv8>)
    requires bits.Length == ByteCount(|soft|)
    modifies bits
    ensures bits[..] == Packed(HardBits(soft))
  {
    var bit, byte := 7, 0;
    forall k | 0 <= k < bits.Length { bits[k] := 0; }
    var i := 0;
    while i < |soft|
      invariant 0 <= i <= |soft| && byte == i / 8 && bit == 7 - i % 8
      invariant forall b :: 0 <= b < bits.Length ==> bits[b] == PackedByte(HardBits(soft), i, b)
    {
      bits[byte] := bits[byte] | ((if soft[i] < 0.0 then 1 else 0) << bit);
      bit := bit - 1;
      if bit < 0 {
        bit := 7;
        byte := byte + 1;
      }
      i := i + 1;
    }
  }

  /** The entries of a frame, read back most significant bit first. */
  function Unpack(bytes: seq<bv8>, n: nat): (r: seq<bv8>)
    requires n <= 8 * |bytes|
    ensures |r| == n && forall i :: 0 <= i < n ==> r[i] == if BitAt(bytes, i) then 1 else 0
  {
    seq(n, i requires 0 <= i < n => if BitAt(bytes, i) then 1 else 0)
  }

  predicate IsBits(chars: seq<bv8>) { forall i :: 0 <= i < |chars| ==> chars[i] == 0 || chars[i] == 1 }

  lemma OrEntry(x: bv8, c: bv8, p: nat, q: nat)
    requires p < 8 && q < 8 && (c == 0 || c == 1)
    ensures Bit(x | (c << p), q) == (Bit(x, q) || (c == 1 && p == q))
  {}

  /** Entry i stands at place q of byte b. */
  lemma PlaceOf(i: nat, b: nat, q: nat)
    requires q < 8
    ensures i == 8 * b + q <==> i / 8 == b && i % 8 == q
  {}

  lemma {:induction false} PackedByteBit(chars: seq<bv8>, n: nat, b: nat, q: nat)
    requires n <= |chars| && IsBits(chars) && q < 8
    ensures Bit(PackedByte(chars, n, b), 7 - q) == (8 * b + q < n && chars[8 * b + q] == 1)
  {
    if n == 0 {
      ZeroByte(7 - q);
    } else {
      PackedByteBit(chars, n - 1, b, q);
      PlaceOf(n - 1, b, q);
      if (n - 1) / 8 == b { EntryBit(chars, n - 1, b, q); }
    }
  }

  /** What or-ing entry i into its byte does to the bit at place q. */
  lemma EntryBit(chars: seq<bv8>, i: nat, b: nat, q: nat)
    requires i < |chars| && IsBits(chars) && q < 8 && i / 8 == b
    ensures Bit(PackedByte(chars, i + 1, b), 7 - q) == (Bit(PackedByte(chars, i, b), 7 - q) || (chars[i] == 1
        && i % 8 == q))
  {
    OrEntry(PackedByte(chars, i, b), chars[i], 7 - i % 8, 7 - q);
  }

  lemma ZeroByte(q: nat)
    requires q < 8
    ensures !Bit(0, q)
  {}

  /** Unpacking what was packed gives the entries back exactly when they are all bits, and
      then the padding of the last byte is zero. */
  lemma PackRoundTrip(chars: seq<bv8>)
    ensures Unpack(Packed(chars), |chars|) == chars <==> IsBits(chars)
    ensures IsBits(chars) ==> forall i :: |chars| <= i < 8 * ByteCount(|chars|) ==> !BitAt(Packed(chars), i)
  {
    var bytes := Packed(chars);
    if IsBits(chars) {
      forall i | 0 <= i < 8 * |bytes| ensures BitAt(bytes, i) == (i < |chars| && chars[i] == 1) {
        PackedByteBit(chars, |chars|, i / 8, i % 8);
      }
    }
    if Unpack(bytes, |chars|) == chars {
      forall i | 0 <= i < |chars| ensures chars[i] == 0 || chars[i] == 1 {
        assert chars[i] == Unpack(bytes, |chars|)[i];
      }
    }
  }

  /** The soft-decision loop sets a bit exactly for a negative value. */
  lemma SoftBits(soft: seq<real>, i: nat)
    requires i < |soft|
    ensures i < 8 * |Packed(HardBits(soft))| && (BitAt(Packed(HardBits(soft)), i) <==> soft[i] < 0.0)
  {
    PackedByteBit(HardBits(soft), |soft|, i / 8, i % 8);
  }

  function Weight(bit: bool, w: int): int { if bit then w else 0 }

  lemma ByteSum(x: bv8)
    ensures x as int == Weight(Bit(x, 7), 128) + Weight(Bit(x, 6), 64) + Weight(Bit(x, 5), 32) + Weight(Bit(x, 4), 16)
                      + Weight(Bit(x, 3), 8) + Weight(Bit(x, 2), 4) + Weight(Bit(x, 1), 2) + Weight(Bit(x, 0), 1)
  {}

  function One(c: bv8): int { if c == 1 then 1 else 0 }

  lemma BitOfEntry(chars: seq<bv8>, b: nat, q: nat, w: int)
    requires IsBits(chars) && q < 8 && 8 * b + q < |chars| && b < |Packed(chars)|
    ensures Weight(Bit(Packed(chars)[b], 7 - q), w) == w * One(chars[8 * b + q])
  {
    PackedByteBit(chars, |chars|, b, q);
  }

  /** The packed byte as a number: the first of its eight entries weighs 128, the last one. */
  lemma PackedValue(chars: seq<bv8>, b: nat)
    requires IsBits(chars) && 8 * b + 8 <= |chars|
    ensures b < |Packed(chars)|
    ensures Packed(chars)[b] as int
         == 128 * One(chars[8 * b]) + 64 * One(chars[8 * b + 1]) + 32 * One(chars[8 * b + 2])
          + 16 * One(chars[8 * b + 3]) + 8 * One(chars[8 * b + 4]) + 4 * One(chars[8 * b + 5])
          + 2 * One(chars[8 * b + 6]) + One(chars[8 * b + 7])
  {
    ByteSum(Packed(chars)[b]);
    BitOfEntry(chars, b, 0, 128);
    BitOfEntry(chars, b, 1, 64);
    BitOfEntry(chars, b, 2, 32);
    BitOfEntry(chars, b, 3, 16);
    BitOfEntry(chars, b, 4, 8);
    BitOfEntry(chars, b, 5, 4);
    BitOfEntry(chars, b, 6, 2);
    BitOfEntry(chars, b, 7, 1);
  }

  // ----- Bit errors

  /** C's i / 8, which truncates toward zero, and the shift the loop makes from it. */
  function ByteOf(i: int): int { if i >= 0 then i / 8 else -(-i / 8) }

  function ShiftOf(i: int): (p: nat)
    ensures p < 15
    ensures i >= 0 ==> p == 7 - i % 8
    ensures i < 0 && ByteOf(i) == 0 ==> p >= 8
  {
    7 - i + ByteOf(i) * 8
  }

  /** One shifted left and stored in an unsigned char. */
  function Mask(p: nat): bv8
    requires p < 15
  {
    ((((1 as bv16) << p) & 0xFF) as bv8)
  }

  lemma MaskInByte(p: nat)
    requires p < 15
    ensures Mask(p) == if p < 8 then (1 as bv8) << p else 0
  {}

  /** Bit i lies in a byte of the frame. A negative i above -8 does: its byte is byte 0. */
  predicate InFrame(i: int, nbyte: nat) { 0 <= ByteOf(i) < nbyte }

  /** The draws of the UNIFORM model: whether the one for bit i falls below the error rate. */
  type Draws = int -> bool

  predicate Hit(hits: Draws, nstart: int, nend: int, i: int) { nstart <= i <= nend && hits(i) }

  /** Every bit that is hit lies in a byte of the frame. */
  ghost predicate HitsInFrame(hits: Draws, nstart: int, nend: int, nbyte: nat) {
    forall i :: Hit(hits, nstart, nend, i) ==> InFrame(i, nbyte)
  }

  /** How many of the draws from lo up to hi hit. */
  function CountHits(hits: Draws, lo: int, hi: int): nat
    decreases hi - lo
  {
    if hi <= lo then 0 else CountHits(hits, lo, hi - 1) + if hits(hi - 1) then 1 else 0
  }

  /** b is a with exactly the bits flipped that are hit. */
  ghost predicate FlippedFrom(a: seq<bv8>, b: seq<bv8>, hits: Draws, nstart: int, nend: int) {
    |a| == |b| && forall i :: 0 <= i < 8 * |a| ==> BitAt(b, i) == (BitAt(a, i) != Hit(hits, nstart, nend, i))
  }

  /** b is a with bit i flipped, if it has that bit. */
  ghost predicate FlipsBit(a: seq<bv8>, b: seq<bv8>, i: int) {
    |a| == |b| && forall j :: 0 <= j < 8 * |a| ==> BitAt(b, j) == (BitAt(a, j) != (j == i))
  }

  lemma FlipOne(a: seq<bv8>, i: nat)
    requires i < 8 * |a|
    ensures FlipsBit(a, a[i / 8 := a[i / 8] ^ ((1 as bv8) << (7 - i % 8))], i)
  {
    var b := a[i / 8 := a[i / 8] ^ ((1 as bv8) << (7 - i % 8))];
    forall j | 0 <= j < 8 * |a| ensures BitAt(b, j) == (BitAt(a, j) != (j == i)) {
      if j / 8 == i / 8 { XorBit(a[i / 8], 7 - i % 8, 7 - j % 8); }
    }
  }

  lemma FlipNone(a: seq<bv8>)
    requires a != []
    ensures a[0 := a[0] ^ 0] == a
  {
    assert a[0] ^ 0 == a[0];
  }

  lemma FlipNext(a: seq<bv8>, b: seq<bv8>, c: seq<bv8>, hits: Draws, nstart: int, i: int)
    requires nstart <= i && FlippedFrom(a, b, hits, nstart, i - 1)
    requires if hits(i) then FlipsBit(b, c, i) else c == b
    ensures FlippedFrom(a, c, hits, nstart, i)
  {}

  /** The loop body. For a negative bit the mask is zero and byte 0 stays as it is. */
  method FlipBit(bits: array<bv8>, i: int)
    requires InFrame(i, bits.Length)
    modifies bits
    ensures FlipsBit(old(bits[..]), bits[..], i)
  {
    ghost var before := bits[..];
    var byte := ByteOf(i);
    var mask := Mask(ShiftOf(i));
    MaskInByte(ShiftOf(i));
    bits[byte] := bits[byte] ^ mask;
    if i >= 0 {
      FlipOne(before, i);
      assert bits[..] == before[i / 8 := before[i / 8] ^ ((1 as bv8) << (7 - i % 8))];
    } else {
      FlipNone(before);
      assert bits[..] == before[0 := before[0] ^ 0];
    }
  }

  /** The error loop, over any start and end bit as long as no draw outside the frame hits. */
  method InjectErrors(bits: array<bv8>, nstart: int, nend: int, hits: Draws) returns (bitErrors: nat, bitsProc: nat)
    requires HitsInFrame(hits, nstart, nend, bits.Length)
    modifies bits
    ensures FlippedFrom(old(bits[..]), bits[..], hits, nstart, nend)
    ensures bitErrors == CountHits(hits, nstart, nend + 1)
    ensures bitsProc == if nend < nstart then 0 else nend + 1 - nstart
  {
    bitErrors, bitsProc := 0, 0;
    var i := nstart;
    while i < nend + 1
      invariant nstart <= i <= (if nend < nstart then nstart else nend + 1) && bitsProc == i - nstart
      invariant FlippedFrom(old(bits[..]), bits[..], hits, nstart, i - 1)
      invariant bitErrors == CountHits(hits, nstart, i)
    {
      ghost var before := bits[..];
      if hits(i) {
        assert Hit(hits, nstart, nend, i);
        FlipBit(bits, i);
        bitErrors := bitErrors + 1;
      }
      FlipNext(old(bits[..]), before, bits[..], hits, nstart, i);
      bitsProc := bitsProc + 1;
      i := i + 1;
    }
  }

  // ----- When the loop stays in the frame

  /** No draw can take the loop out of the frame: for start and end bit this is so exactly
      when the range is empty, or starts above -8 and ends in the frame. */
  lemma StaysInFrame(nstart: int, nend: int, nbyte: nat)
    ensures (forall hits: Draws :: HitsInFrame(hits, nstart, nend, nbyte))
       <==> (nend < nstart || (nstart > -8 && nend < 8 * nbyte && nbyte > 0))
  {
    var always: Draws := _ => true;
    if HitsInFrame(always, nstart, nend, nbyte) && nstart <= nend {
      assert Hit(always, nstart, nend, nstart) && Hit(always, nstart, nend, nend);
    }
  }

  /** The program checks nend <= nbit only. Among the ranges it admits, the loop can leave
      the frame exactly on a range that is not empty and starts below -7 or ends at nbit on
      a whole-byte frame. */
  lemma EndBitInFrame(nstart: int, nend: int, nbit: nat)
    requires nend <= nbit && nbit > 0
    ensures (forall hits: Draws :: HitsInFrame(hits, nstart, nend, ByteCount(nbit)))
       <==> !(nstart <= nend && (nstart <= -8 || (nend == nbit && nbit % 8 == 0)))
  {
    StaysInFrame(nstart, nend, ByteCount(nbit));
  }

  /** Start bit -8 with the default end bit of a 52-bit frame, and end bit 64 of a 64-bit
      frame, both admitted: a hit there writes the byte before or after the frame. */
  lemma LeavesFrame()
    ensures ByteOf(-8) == -1 && !InFrame(-8, ByteCount(52)) && !InFrame(64, ByteCount(64))
  {}

  // ----- What the count means

  /** Number of differing bits among the first n. */
  function Distance(a: seq<bv8>, b: seq<bv8>, n: nat): nat
    requires |a| == |b| && n <= 8 * |a|
  {
    if n == 0 then 0 else Distance(a, b, n - 1) + if BitAt(a, n - 1) != BitAt(b, n - 1) then 1 else 0
  }

  /** The draws that hit among bits 0 up to n of the range. */
  function CountFlips(hits: Draws, nstart: int, nend: int, n: nat): nat {
    if n == 0 then 0 else CountFlips(hits, nstart, nend, n - 1) + if Hit(hits, nstart, nend, n - 1) then 1 else 0
  }

  lemma {:induction false} FlipsAreDistance(a: seq<bv8>, b: seq<bv8>, hits: Draws, nstart: int, nend: int, n: nat)
    requires FlippedFrom(a, b, hits, nstart, nend) && n <= 8 * |a|
    ensures Distance(a, b, n) == CountFlips(hits, nstart, nend, n)
  {
    if n > 0 { FlipsAreDistance(a, b, hits, nstart, nend, n - 1); }
  }

  function Min(a: int, b: int): int { if a < b then a else b }

  /** The draws of a range, those of its negative bits and those of its other ones. */
  lemma {:induction false} CountSplits(hits: Draws, nstart: int, nend: int, n: nat)
    ensures CountHits(hits, nstart, Min(nend + 1, n))
         == CountHits(hits, nstart, Min(nend + 1, 0)) + CountFlips(hits, nstart, nend, n)
  {
    if n > 0 { CountSplits(hits, nstart, nend, n - 1); }
  }

  lemma {:induction false} NoMoreHits(hits: Draws, nstart: int, hi: int, n: nat)
    requires forall i :: n <= i < hi && nstart <= i ==> !hits(i)
    ensures CountHits(hits, nstart, hi) == CountHits(hits, nstart, Min(hi, n))
    decreases hi - nstart
  {
    if nstart < hi && n < hi { NoMoreHits(hits, nstart, hi - 1, n); }
  }

  /** The hits at negative bits of the range. */
  function NegativeHits(hits: Draws, nstart: int, nend: int): nat { CountHits(hits, nstart, Min(nend + 1, 0)) }

  /** The errors counted are the Hamming distance between the frame before and after, and
      the hits at negative bits, which flip nothing. */
  lemma ErrorsAreDistance(a: seq<bv8>, b: seq<bv8>, hits: Draws, nstart: int, nend: int)
    requires FlippedFrom(a, b, hits, nstart, nend) && HitsInFrame(hits, nstart, nend, |a|)
    ensures CountHits(hits, nstart, nend + 1) == Distance(a, b, 8 * |a|) + NegativeHits(hits, nstart, nend)
  {
    var n := 8 * |a|;
    FlipsAreDistance(a, b, hits, nstart, nend, n);
    CountSplits(hits, nstart, nend, n);
    forall i | n <= i < nend + 1 && nstart <= i ensures !hits(i) {
      assert !InFrame(i, |a|);
      assert !Hit(hits, nstart, nend, i);
    }
    NoMoreHits(hits, nstart, nend + 1, n);
  }

  lemma {:induction false} NoHits(hits: Draws, lo: int, hi: int)
    ensures CountHits(hits, lo, hi) == 0 <==> forall i :: lo <= i < hi ==> !hits(i)
    decreases hi - lo
  {
    if lo < hi { NoHits(hits, lo, hi - 1); }
  }

  /** The count is that distance exactly when no draw at a negative bit hit. */
  lemma CountIsExact(a: seq<bv8>, b: seq<bv8>, hits: Draws, nstart: int, nend: int)
    requires FlippedFrom(a, b, hits, nstart, nend) && HitsInFrame(hits, nstart, nend, |a|)
    ensures CountHits(hits, nstart, nend + 1) == Distance(a, b, 8 * |a|)
       <==> forall i :: nstart <= i <= nend && i < 0 ==> !hits(i)
  {
    ErrorsAreDistance(a, b, hits, nstart, nend);
    NoHits(hits, nstart, Min(nend + 1, 0));
  }

  /** Over all draws that stay in the frame, the count is that distance exactly when the
      range has none of the bits -7 to -1. */
  lemma AlwaysExact(nstart: int, nend: int, nbyte: nat)
    requires nbyte > 0
    ensures (forall hits: Draws :: HitsInFrame(hits, nstart, nend, nbyte) ==> NegativeHits(hits, nstart, nend) == 0)
       <==> (0 <= nstart || nend < nstart || nend <= -8)
  {
    if 0 <= nstart || nend < nstart || nend <= -8 {
      forall hits: Draws | HitsInFrame(hits, nstart, nend, nbyte) ensures NegativeHits(hits, nstart, nend) == 0 {
        forall i | nstart <= i < Min(nend + 1, 0) ensures !hits(i) {
          assert !InFrame(i, nbyte) && !Hit(hits, nstart, nend, i);
        }
        NoHits(hits, nstart, Min(nend + 1, 0));
      }
    } else {
      var w := if nstart < -7 then -7 else nstart;
      var once: Draws := i => i == w;
      assert HitsInFrame(once, nstart, nend, nbyte);
      NoHits(once, nstart, Min(nend + 1, 0));
      assert once(w);
    }
  }

  /** A count without a flip: start bit -1, and a hit there alone. */
  lemma CountedNotFlipped(a: seq<bv8>)
    requires |a| == ByteCount(52)
    ensures var hits: Draws := i => i == -1;
      HitsInFrame(hits, -1, 51, |a|) && FlippedFrom(a, a, hits, -1, 51) && CountHits(hits, -1, 52) == 1
  {
    var hits: Draws := i => i == -1;
    NoMoreHits(hits, -1, 52, 0);
  }

  /** The same errors again undo themselves, byte for byte. */
  lemma ErrorsUndo(a: seq<bv8>, b: seq<bv8>, c: seq<bv8>, hits: Draws, nstart: int, nend: int)
    requires FlippedFrom(a, b, hits, nstart, nend) && FlippedFrom(b, c, hits, nstart, nend)
    ensures a == c
  {
    SameBits(a, c);
  }
}
