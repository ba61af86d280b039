/**
 Frame masking (`src/adapters/ws/protocol/frame/mask.rs`), section 5.3 of RFC 6455.

 `Masked` is the byte-by-byte definition.  `ApplyMaskFast32` works in place on a buffer seen as a prefix of
 bytes, a run of 32-bit words in machine byte order, and a suffix of bytes.
 */
module Masking {
  import opened Base

  type Mask = m: Bytes | |m| == 4 witness [0, 0, 0, 0]

  // ---------------------------------------------------------------- exclusive or, bit by bit

  function Xor(a: nat, b: nat): nat
    decreases a + b
  {
    if a == 0 && b == 0 then 0 else (a + b) % 2 + 2 * Xor(a / 2, b / 2)
  }

  lemma {:induction false} XorTwice(a: nat, b: nat)
    ensures Xor(Xor(a, b), b) == a
    decreases a + b
  {
    hide Xor;
    XorUnfolds(a, b);
    XorUnfolds(Xor(a, b), b);
    ParityTwice(a, b, Xor(a / 2, b / 2));
    if a + b > 0 {
      XorTwice(a / 2, b / 2);
    } else {
      XorOfNothing();
    }
  }

  lemma XorOfNothing()
    ensures Xor(0, 0) == 0
  {
  }

  lemma ParityTwice(a: nat, b: nat, half: nat)
    ensures var x := (a + b) % 2 + 2 * half; x / 2 == half && (x + b) % 2 == a % 2
  {
    var r := (a + b) % 2;
    assert (r + 2 * half + b) % 2 == (r + b) % 2;
    assert a + b == r + 2 * ((a + b) / 2);
  }

  lemma XorUnfolds(a: nat, b: nat)
    ensures Xor(a, b) == (a + b) % 2 + 2 * Xor(a / 2, b / 2)
  {
  }

  function Shifted(x: nat, k: nat): nat
    decreases k
  {
    if k == 0 then x else 2 * Shifted(x, k - 1)
  }

  /** Low and high parts do not mix. */
  lemma {:induction false} XorSplit(k: nat, a: nat, b: nat, x: nat, y: nat)
    requires a < Shifted(1, k) && b < Shifted(1, k)
    ensures Xor(a, b) < Shifted(1, k)
    ensures Xor(a + Shifted(x, k), b + Shifted(y, k)) == Xor(a, b) + Shifted(Xor(x, y), k)
    decreases k
  {
    hide Xor;
    if k == 0 {
      XorOfNothing();
    } else {
      XorSplit(k - 1, a / 2, b / 2, x, y);
      XorUnfolds(a, b);
      XorSplitStep(a, b, Shifted(x, k - 1), Shifted(y, k - 1), Shifted(Xor(x, y), k - 1));
    }
  }

  lemma XorSplitStep(a: nat, b: nat, x: nat, y: nat, z: nat)
    requires Xor(a / 2 + x, b / 2 + y) == Xor(a / 2, b / 2) + z
    ensures Xor(a + 2 * x, b + 2 * y) == Xor(a, b) + 2 * z
  {
    hide Xor;
    XorUnfolds(a + 2 * x, b + 2 * y);
    XorUnfolds(a, b);
    ParityOfSum(a + 2 * x, b + 2 * y, a, b);
  }

  lemma ParityOfSum(u: nat, v: nat, a: nat, b: nat)
    requires u % 2 == a % 2 && v % 2 == b % 2
    ensures (u + v) % 2 == (a + b) % 2
  {
  }

  function Join(low: int, high: int): int {
    low + 256 * high
  }

  lemma EightBits(x: nat)
    ensures Shifted(x, 8) == 256 * x
  {
    assert Shifted(x, 2) == 4 * x;
    assert Shifted(x, 4) == 16 * x;
    assert Shifted(x, 6) == 64 * x;
  }

  lemma XorJoin(a: Byte, b: Byte, x: nat, y: nat)
    ensures 0 <= Xor(a, b) < 256
    ensures Xor(Join(a, x), Join(b, y)) == Join(Xor(a, b), Xor(x, y))
  {
    EightBits(1);
    EightBits(x);
    EightBits(y);
    EightBits(Xor(x, y));
    XorSplitAt(8, a, b, x, y);
  }

  lemma XorSplitAt(k: nat, a: Byte, b: Byte, x: nat, y: nat)
    requires Shifted(1, k) == 256
    requires forall z: nat | z in {x, y, Xor(x, y)} :: Shifted(z, k) == 256 * z
    ensures 0 <= Xor(a, b) < 256
    ensures Xor(Join(a, x), Join(b, y)) == Join(Xor(a, b), Xor(x, y))
  {
    hide Xor;
    XorSplit(k, a, b, x, y);
  }

  function XorByte(a: Byte, b: Byte): Byte {
    XorJoin(a, b, 0, 0);
    Xor(a, b)
  }

  // ---------------------------------------------------------------- masking

  function Masked(data: Bytes, mask: Mask): Bytes {
    seq(|data|, i requires 0 <= i < |data| => XorByte(data[i], mask[i % 4]))
  }

  /** Masking twice restores the buffer. */
  lemma MaskedTwice(data: Bytes, mask: Mask)
    ensures Masked(Masked(data, mask), mask) == data
  {
    forall i | 0 <= i < |data| ensures Masked(Masked(data, mask), mask)[i] == data[i] {
      XorTwice(data[i], mask[i % 4]);
    }
  }

  // ---------------------------------------------------------------- 32-bit words in either byte order

  type Word = w: int | 0 <= w < 0x1_0000_0000

  lemma SplitJoin(low: Byte, high: nat)
    ensures Join(low, high) % 256 == low && Join(low, high) / 256 == high
  {
  }

  function LittleWord(b: Mask): Word {
    Join(b[0], Join(b[1], Join(b[2], b[3])))
  }

  function Reversed(b: Mask): Mask {
    [b[3], b[2], b[1], b[0]]
  }

  function LoadWord(b: Mask, bigEndian: bool): Word {
    LittleWord(if bigEndian then Reversed(b) else b)
  }

  function StoreWord(w: Word, bigEndian: bool): Mask {
    var little := [w % 256, w / 256 % 256, w / 256 / 256 % 256, w / 256 / 256 / 256];
    if bigEndian then Reversed(little) else little
  }

  /** Rotation by whole bytes, towards the low end. */
  function RotateRight(w: Word, octets: nat): Word
    decreases octets
  {
    if octets == 0 then w else RotateRight(w / 256 + w % 256 * 0x100_0000, octets - 1)
  }

  function RotateLeft(w: Word, octets: nat): Word
    decreases octets
  {
    if octets == 0 then w else RotateLeft(w % 0x100_0000 * 256 + w / 0x100_0000, octets - 1)
  }

  /** The mask a word sees when `head` bytes of the buffer came before the first word. */
  function ShiftedMask(mask: Mask, head: nat): Mask
    requires head < 4
  {
    mask[head..] + mask[..head]
  }

  lemma StoreLoad(b: Mask, bigEndian: bool)
    ensures StoreWord(LoadWord(b, bigEndian), bigEndian) == b
  {
    var l := if bigEndian then Reversed(b) else b;
    SplitJoin(l[0], Join(l[1], Join(l[2], l[3])));
    SplitJoin(l[1], Join(l[2], l[3]));
    SplitJoin(l[2], l[3]);
  }

  lemma RightOne(b: Mask)
    ensures var w := LittleWord(b); w / 256 + w % 256 * 0x100_0000 == LittleWord([b[1], b[2], b[3], b[0]])
  {
    SplitJoin(b[0], Join(b[1], Join(b[2], b[3])));
  }

  lemma SplitHigh(low: int, high: int)
    requires 0 <= low < 0x100_0000 && 0 <= high
    ensures (low + 0x100_0000 * high) % 0x100_0000 == low && (low + 0x100_0000 * high) / 0x100_0000 == high
  {
  }

  lemma LeftOne(b: Mask)
    ensures var w := LittleWord(b); w % 0x100_0000 * 256 + w / 0x100_0000 == LittleWord([b[3], b[0], b[1], b[2]])
  {
    SplitHigh(Join(b[0], Join(b[1], b[2])), b[3]);
  }

  lemma {:induction false} RotateMask(b: Mask, head: nat, bigEndian: bool)
    requires head < 4
    ensures (if bigEndian then RotateLeft(LoadWord(b, true), head) else RotateRight(LoadWord(b, false), head))
         == LoadWord(ShiftedMask(b, head), bigEndian)
    decreases head
  {
    hide Join;
    if head == 0 {
      assert ShiftedMask(b, head) == b;
    } else {
      var next: Mask := [b[1], b[2], b[3], b[0]];
      RightOne(b);
      LeftOne(Reversed(b));
      RotateMask(next, head - 1, bigEndian);
      assert ShiftedMask(b, head) == ShiftedMask(next, head - 1);
      assert Reversed(next) == [Reversed(b)[3], Reversed(b)[0], Reversed(b)[1], Reversed(b)[2]];
    }
  }

  lemma XorLittle(a: Mask, b: Mask)
    ensures Xor(LittleWord(a), LittleWord(b)) == LittleWord(Masked(a, b))
  {
    XorJoin(a[0], b[0], Join(a[1], Join(a[2], a[3])), Join(b[1], Join(b[2], b[3])));
    XorJoin(a[1], b[1], Join(a[2], a[3]), Join(b[2], b[3]));
    XorJoin(a[2], b[2], a[3], b[3]);
  }

  /** One word operation masks its four bytes. */
  lemma XorWord(a: Mask, b: Mask, bigEndian: bool)
    ensures Xor(LoadWord(a, bigEndian), LoadWord(b, bigEndian)) == LoadWord(Masked(a, b), bigEndian)
  {
    if bigEndian {
      XorLittle(Reversed(a), Reversed(b));
      assert Masked(Reversed(a), Reversed(b)) == Reversed(Masked(a, b));
    } else {
      XorLittle(a, b);
    }
  }

  // ---------------------------------------------------------------- in place

  /** `now` is `was` with exactly the stretch from `lo` to `hi` masked, as a buffer of its own. */
  ghost predicate MaskedStretch(now: Bytes, was: Bytes, lo: nat, hi: nat, mask: Mask) {
    && |now| == |was|
    && forall j :: 0 <= j < |was| ==>
         now[j] == if lo <= j < hi then XorByte(was[j], mask[(j - lo) % 4]) else was[j]
  }

  lemma ShiftedIndex(mask: Mask, lo: nat, i: nat)
    requires lo <= i
    ensures ShiftedMask(mask, lo % 4)[(i - lo) % 4] == mask[i % 4]
  {
    var head, j := lo % 4, (i - lo) % 4;
    assert i == 4 * (lo / 4 + (i - lo) / 4) + head + j;
    assert i % 4 == (head + j) % 4;
  }

  /** Prefix, words and suffix, each masked on its own, make up the masked buffer. */
  lemma ThreeStretches(s0: Bytes, s1: Bytes, s2: Bytes, s3: Bytes, p: nat, q: nat, mask: Mask)
    requires p <= q <= |s0| && q % 4 == p % 4
    requires MaskedStretch(s1, s0, 0, p, mask)
    requires MaskedStretch(s2, s1, p, q, ShiftedMask(mask, p % 4))
    requires MaskedStretch(s3, s2, q, |s0|, ShiftedMask(mask, p % 4))
    ensures s3 == Masked(s0, mask)
  {
    forall j | 0 <= j < |s0| ensures s3[j] == XorByte(s0[j], mask[j % 4]) {
      if p <= j < q {
        ShiftedIndex(mask, p, j);
      } else if q <= j {
        ShiftedIndex(mask, q, j);
      }
    }
  }

  method ApplyMaskFallback(buf: array<Byte>, lo: nat, hi: nat, mask: Mask)
    requires lo <= hi <= buf.Length
    modifies buf
    ensures MaskedStretch(buf[..], old(buf[..]), lo, hi, mask)
  {
    for i := lo to hi
      invariant MaskedStretch(buf[..], old(buf[..]), lo, i, mask)
    {
      buf[i] := XorByte(buf[i], mask[(i - lo) % 4]);
    }
  }

  method MaskWord(buf: array<Byte>, at: nat, maskWord: Word, ghost mask: Mask, bigEndian: bool)
    requires at + 4 <= buf.Length && maskWord == LoadWord(mask, bigEndian)
    modifies buf
    ensures MaskedStretch(buf[..], old(buf[..]), at, at + 4, mask)
  {
    var octets: Mask := buf[at..at + 4];
    XorWord(octets, mask, bigEndian);
    StoreLoad(Masked(octets, mask), bigEndian);
    var stored := StoreWord(Xor(LoadWord(octets, bigEndian), maskWord), bigEndian);
    buf[at], buf[at + 1], buf[at + 2], buf[at + 3] := stored[0], stored[1], stored[2], stored[3];
  }

  lemma OneMoreWord(s0: Bytes, s1: Bytes, s2: Bytes, lo: nat, w: nat, mask: Mask)
    requires MaskedStretch(s1, s0, lo, lo + 4 * w, mask)
    requires MaskedStretch(s2, s1, lo + 4 * w, lo + 4 * w + 4, mask)
    ensures MaskedStretch(s2, s0, lo, lo + 4 * (w + 1), mask)
  {
    hide XorByte;
    var at := lo + 4 * w;
    forall j | 0 <= j < |s0| && at <= j < at + 4
      ensures s2[j] == XorByte(s0[j], mask[(j - lo) % 4])
    {
      assert (4 * w + (j - at)) % 4 == (j - at) % 4;
    }
  }

  method MaskWords(buf: array<Byte>, lo: nat, words: nat, maskWord: Word, ghost mask: Mask, bigEndian: bool)
    requires lo + 4 * words <= buf.Length && maskWord == LoadWord(mask, bigEndian)
    modifies buf
    ensures MaskedStretch(buf[..], old(buf[..]), lo, lo + 4 * words, mask)
  {
    for w := 0 to words
      invariant MaskedStretch(buf[..], old(buf[..]), lo, lo + 4 * w, mask)
    {
      ghost var before := buf[..];
      MaskWord(buf, lo + 4 * w, maskWord, mask, bigEndian);
      OneMoreWord(old(buf[..]), before, buf[..], lo, w, mask);
    }
  }

  /** Word-wise masking equals byte-wise masking, for every split of the buffer and both byte orders. */
  method ApplyMaskFast32(buf: array<Byte>, mask: Mask, prefix: nat, words: nat, bigEndian: bool)
    requires prefix + 4 * words <= buf.Length
    modifies buf
    ensures buf[..] == Masked(old(buf[..]), mask)
  {
    hide StoreWord;
    hide LoadWord;
    hide Masked;
    hide MaskedStretch;
    var suffix := prefix + 4 * words;
    var maskWord := LoadWord(mask, bigEndian);
    ApplyMaskFallback(buf, 0, prefix, mask);
    ghost var s1 := buf[..];
    var head := prefix % 4;
    if head > 0 {
      maskWord := if bigEndian then RotateLeft(maskWord, head) else RotateRight(maskWord, head);
    }
    RotateMask(mask, head, bigEndian);
    ghost var shifted := ShiftedMask(mask, head);
    MaskWords(buf, prefix, words, maskWord, shifted, bigEndian);
    ghost var s2 := buf[..];
    StoreLoad(shifted, bigEndian);
    ApplyMaskFallback(buf, suffix, buf.Length, StoreWord(maskWord, bigEndian));
    ThreeStretches(old(buf[..]), s1, s2, buf[..], prefix, suffix, mask);
  }
}
