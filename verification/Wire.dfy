/**
 What is on the wire, byte by byte and number by number: section 5.2 of RFC 6455 for frames, section 7.4 for
 close codes, section 4 of RFC 3629 for text, and the size prefix of the message stream.  Nothing here goes
 through the functions that compute it.
 */
module WireForms {
  import opened Base
  import opened Coding
  import opened Masking
  import opened Frames

  // ---------------------------------------------------------------- operation and close codes

  /** The operation codes of section 5.2 of RFC 6455. */
  predicate IsOpCode(op: OpCode, number: int) {
    if op.Control? then
      if op.control.Close? then number == 8
      else if op.control.Ping? then number == 9
      else if op.control.Pong? then number == 10
      else number == op.control.code
    else
      if op.data.Continue? then number == 0
      else if op.data.Text? then number == 1
      else if op.data.Binary? then number == 2
      else number == op.data.code
  }

  lemma OpCodesAreNumbered(op: OpCode)
    ensures IsOpCode(op, OpCodeNumber(op))
  {
  }

  /** The close codes of section 7.4.1 of RFC 6455, and of the registry that goes on with them. */
  lemma CloseCodesAreNumbered(n: U16)
    ensures CloseCodeOf(n)
         == if n == 1000 then Normal
            else if n == 1001 then Away
            else if n == 1002 then CloseCode.Protocol
            else if n == 1003 then Unsupported
            else if n == 1005 then Status
            else if n == 1006 then Abnormal
            else if n == 1007 then CloseCode.Invalid
            else if n == 1008 then Policy
            else if n == 1009 then Size
            else if n == 1010 then Extension
            else if n == 1011 then CloseCode.Error
            else if n == 1012 then Restart
            else if n == 1013 then Again
            else if n == 1015 then Tls
            else if 1016 <= n <= 2999 then Reserved(n)
            else if 3000 <= n <= 3999 then Iana(n)
            else if 4000 <= n <= 4999 then Library(n)
            else Bad(n)
  {
  }

  // ---------------------------------------------------------------- headers

  function FlagBit(on: bool): int {
    if on then 1 else 0
  }

  /** The first byte: final, three reserved bits, operation code. */
  predicate FirstByteOf(h: Header, b: Byte) {
    && b / 128 == FlagBit(h.fin) && b / 64 % 2 == FlagBit(h.rsv1)
    && b / 32 % 2 == FlagBit(h.rsv2) && b / 16 % 2 == FlagBit(h.rsv3)
    && IsOpCode(h.opcode, b % 16)
  }

  /**
   The second byte and those of the length: up to 125 in seven bits, up to 65535 in two more bytes, and
   anything above in eight more, most significant first.
   */
  predicate LengthBytesOf(length: nat, b: Bytes) {
    if length < 126 then |b| >= 2 && b[1] % 128 == length
    else if length < 65536 then |b| >= 4 && b[1] % 128 == 126 && b[2] == length / 256 && b[3] == length % 256
    else
      && |b| >= 10 && b[1] % 128 == 127
      && b[2] == length / 0x100_0000_0000_0000 && b[3] == length / 0x1_0000_0000_0000 % 256
      && b[4] == length / 0x100_0000_0000 % 256 && b[5] == length / 0x1_0000_0000 % 256
      && b[6] == length / 0x100_0000 % 256 && b[7] == length / 0x1_0000 % 256
      && b[8] == length / 0x100 % 256 && b[9] == length % 256
  }

  function LengthExtra(length: nat): nat {
    if length < 126 then 0 else if length < 65536 then 2 else 8
  }

  /** Header bytes as section 5.2 of RFC 6455 draws them, for a payload of this length. */
  predicate HeaderBytes(h: Header, length: nat, b: Bytes) {
    && |b| == 2 + LengthExtra(length) + (if h.mask.Some? then 4 else 0)
    && FirstByteOf(h, b[0])
    && b[1] / 128 == FlagBit(h.mask.Some?)
    && LengthBytesOf(length, b)
    && (h.mask.Some? ==> b[|b| - 4..] == h.mask.value)
  }

  lemma FirstByteIs(h: Header)
    ensures FirstByteOf(h, FirstByte(h))
  {
    hide OpCodeNumber, IsOpCode;
    OpCodesAreNumbered(h.opcode);
    var n: Nibble := OpCodeNumber(h.opcode);
    FlagSplit(h.fin, h.rsv1, h.rsv2, h.rsv3, n);
  }

  lemma HighBits(n: Nibble, k: nat)
    ensures var x := n + 16 * k; x / 32 == k / 2 && x / 64 == k / 4 && x / 128 == k / 8
  {
  }

  lemma FlagSplit(a: bool, b: bool, c: bool, d: bool, n: Nibble)
    ensures var x := n + Bit(a, 0x80) + Bit(b, 0x40) + Bit(c, 0x20) + Bit(d, 0x10);
            && 0 <= x < 256 && x / 128 == FlagBit(a) && x / 64 % 2 == FlagBit(b) && x / 32 % 2 == FlagBit(c)
            && x / 16 % 2 == FlagBit(d) && x % 16 == n
  {
    var k := Bit(a, 8) + Bit(b, 4) + Bit(c, 2) + Bit(d, 1);
    var x := n + 16 * k;
    SplitNibble(n, k);
    FlagBits(a, b, c, d);
    assert k < 16;
    HighBits(n, k);
    assert k / 8 < 2;
  }

  lemma TwoBytes(n: nat)
    requires n < 65536
    ensures BigEndian(n, 2) == [n / 256, n % 256]
  {
    assert BigEndian(n / 256, 1) == [n / 256 % 256] by { OneByte(n / 256); }
  }

  lemma OneByte(n: nat)
    ensures BigEndian(n, 1) == [n % 256]
  {
    assert BigEndian(n / 256, 0) == [];
  }

  lemma OneMoreByte(n: nat, count: nat)
    requires count > 0
    ensures BigEndian(n, count) == BigEndian(n / 256, count - 1) + [n % 256]
  {
  }

  lemma FourMoreBytes(n: nat, count: nat)
    requires count >= 4
    ensures BigEndian(n, count)
         == BigEndian(n / 0x1_0000_0000, count - 4)
          + [n / 0x100_0000 % 256, n / 0x1_0000 % 256, n / 0x100 % 256, n % 256]
  {
    hide BigEndian;
    var a, b, c := n / 256, n / 0x1_0000, n / 0x100_0000;
    assert b == a / 256 && c == b / 256 && n / 0x1_0000_0000 == c / 256;
    OneMoreByte(n, count);
    OneMoreByte(a, count - 1);
    OneMoreByte(b, count - 2);
    OneMoreByte(c, count - 3);
  }

  lemma HighBytes(n: nat)
    requires n < USIZE_LIMIT
    ensures var high := n / 0x1_0000_0000;
            && high / 0x100_0000 == n / 0x100_0000_0000_0000 < 256
            && high / 0x1_0000 == n / 0x1_0000_0000_0000 && high / 0x100 == n / 0x100_0000_0000
  {
  }

  lemma EightBytes(n: nat)
    requires n < USIZE_LIMIT
    ensures BigEndian(n, 8)
         == [n / 0x100_0000_0000_0000, n / 0x1_0000_0000_0000 % 256, n / 0x100_0000_0000 % 256,
             n / 0x1_0000_0000 % 256, n / 0x100_0000 % 256, n / 0x1_0000 % 256, n / 0x100 % 256, n % 256]
  {
    hide BigEndian;
    var high := n / 0x1_0000_0000;
    HighBytes(n);
    FourMoreBytes(n, 8);
    FourMoreBytes(high, 4);
    var top: Bytes := [high / 0x100_0000 % 256, high / 0x1_0000 % 256, high / 0x100 % 256, high % 256];
    assert BigEndian(high, 4) == top by { assert |BigEndian(high / 0x1_0000_0000, 0)| == 0; }
    assert high / 0x100_0000 % 256 == n / 0x100_0000_0000_0000;
  }

  lemma LengthByteIs(length: nat, masked: bool)
    ensures var b := FormatForLength(length).LengthByte() + Bit(masked, 0x80);
            && b / 128 == FlagBit(masked)
            && b % 128 == (if length < 126 then length else if length < 65536 then 126 else 127)
    ensures FormatForLength(length).ExtraBytes() == LengthExtra(length)
  {
  }

  /** The digits of the length, where they are. */
  lemma LengthOnTheWire(length: nat, b: Bytes)
    requires length < USIZE_LIMIT && |b| >= 2 + LengthExtra(length)
    requires b[1] % 128 == (if length < 126 then length else if length < 65536 then 126 else 127)
    requires b[2..2 + LengthExtra(length)] == BigEndian(length, LengthExtra(length))
    ensures LengthBytesOf(length, b)
  {
    hide BigEndian;
    var digits := b[2..2 + LengthExtra(length)];
    if length >= 65536 {
      EightBytes(length);
      EightDigits(b, digits);
    } else if length >= 126 {
      TwoBytes(length);
      assert b[2] == digits[0] && b[3] == digits[1];
    }
  }

  lemma EightDigits(b: Bytes, digits: Bytes)
    requires |b| >= 10 && digits == b[2..10]
    ensures digits == [b[2], b[3], b[4], b[5], b[6], b[7], b[8], b[9]]
  {
  }

  /** A formatted header is those bytes. */
  lemma HeaderOnTheWire(h: Header, length: nat)
    requires length < USIZE_LIMIT
    ensures HeaderBytes(h, length, FormatHeader(h, length))
  {
    hide FormatForLength, FirstByte, BigEndian, FirstByteOf, FormatHeader, LengthBytesOf;
    HeaderParts(h, length, []);
    FirstByteIs(h);
    LengthByteIs(length, h.mask.Some?);
    var b := FormatHeader(h, length);
    assert b + [] == b;
    if h.mask.Some? {
      assert b[|b| - 4..] == b[2 + LengthExtra(length)..6 + LengthExtra(length)];
    }
    LengthOnTheWire(length, b);
  }

  /** Only one string of bytes is the header of this header and length. */
  lemma HeaderBytesUnique(h: Header, length: nat, x: Bytes, y: Bytes)
    requires HeaderBytes(h, length, x) && HeaderBytes(h, length, y)
    ensures x == y
  {
    FirstByteUnique(h, x[0], y[0]);
    hide FirstByteOf;
    assert x[1] == 128 * (x[1] / 128) + x[1] % 128 && y[1] == 128 * (y[1] / 128) + y[1] % 128;
    if h.mask.Some? {
      assert x == x[..|x| - 4] + x[|x| - 4..] && y == y[..|y| - 4] + y[|y| - 4..];
    }
  }

  lemma FirstByteUnique(h: Header, x: Byte, y: Byte)
    requires FirstByteOf(h, x) && FirstByteOf(h, y)
    ensures x == y
  {
    BitsMake(x);
    BitsMake(y);
  }

  lemma BitsMake(x: Byte)
    ensures x == 128 * (x / 128) + 64 * (x / 64 % 2) + 32 * (x / 32 % 2) + 16 * (x / 16 % 2) + x % 16
  {
    var a, b, c: int := x / 16, x / 32, x / 64;
    assert x == 16 * a + x % 16;
    assert b == a / 2 && a == 2 * b + a % 2;
    assert c == b / 2 && b == 2 * c + b % 2;
    assert x / 128 == c / 2 && c == 2 * (c / 2) + c % 2;
  }

  // ---- reading any header, minimal or not

  /** How many bytes a header takes that has these in front. */
  function HeaderNeeds(b: Bytes): nat {
    if |b| < 2 then 2
    else
      2 + (if b[1] % 128 == 126 then 2 else if b[1] % 128 == 127 then 8 else 0) + if b[1] >= 128 then 4 else 0
  }

  /** The length that a header announces. */
  function AnnouncedLength(b: Bytes): int
    requires |b| >= 2 && |b| >= HeaderNeeds(b)
  {
    if b[1] % 128 == 126 then 0x100 * (b[2] as int) + b[3]
    else if b[1] % 128 == 127 then
      0x100_0000_0000_0000 * (b[2] as int) + 0x1_0000_0000_0000 * (b[3] as int)
      + 0x100_0000_0000 * (b[4] as int) + 0x1_0000_0000 * (b[5] as int)
      + 0x100_0000 * (b[6] as int) + 0x1_0000 * (b[7] as int) + 0x100 * (b[8] as int) + b[9]
    else b[1] % 128
  }

  lemma FromTwoBytes(b: Bytes)
    requires |b| == 2
    ensures FromBigEndian(b) == 0x100 * (b[0] as int) + b[1]
  {
    assert b[..1][..0] == [];
    assert FromBigEndian(b[..1]) == b[0];
  }

  lemma FromOneMore(b: Bytes, x: Byte)
    ensures FromBigEndian(b + [x]) == 256 * FromBigEndian(b) + x
  {
    assert (b + [x])[..|b|] == b;
  }

  lemma FromEightBytes(b: Bytes)
    requires |b| == 8
    ensures FromBigEndian(b)
         == 0x100_0000_0000_0000 * (b[0] as int) + 0x1_0000_0000_0000 * (b[1] as int)
          + 0x100_0000_0000 * (b[2] as int) + 0x1_0000_0000 * (b[3] as int)
          + 0x100_0000 * (b[4] as int) + 0x1_0000 * (b[5] as int) + 0x100 * (b[6] as int) + b[7]
  {
    hide FromBigEndian;
    FromTwoBytes(b[..2]);
    assert b[..3] == b[..2] + [b[2]] && b[..4] == b[..3] + [b[3]] && b[..5] == b[..4] + [b[4]];
    assert b[..6] == b[..5] + [b[5]] && b[..7] == b[..6] + [b[6]] && b == b[..7] + [b[7]];
    FromOneMore(b[..2], b[2]);
    FromOneMore(b[..3], b[3]);
    FromOneMore(b[..4], b[4]);
    FromOneMore(b[..5], b[5]);
    FromOneMore(b[..6], b[6]);
    FromOneMore(b[..7], b[7]);
  }

  lemma HeaderOfByte(first: Byte, mask: Option<Mask>)
    ensures var h := HeaderOf(first, mask); FirstByteOf(h, first) && h.mask == mask
    ensures HeaderOf(first, mask).opcode.IsReserved() <==> 3 <= first % 16 <= 7 || 11 <= first % 16 <= 15
  {
    hide IsOpCode;
    var op := OpCodeOf(first % 16);
    OpCodesAreNumbered(op);
    var flags := first / 16;
    assert flags / 8 == first / 128 && flags / 4 == first / 64 && flags / 2 == first / 32;
  }

  lemma FormatOfByte(b: Byte)
    ensures FormatForByte(b).ExtraBytes() == if b % 128 == 126 then 2 else if b % 128 == 127 then 8 else 0
  {
  }

  lemma AnnouncedIs(b: Bytes)
    requires |b| >= 2 && |b| >= HeaderNeeds(b)
    ensures var extra := FormatForByte(b[1]).ExtraBytes();
            && AnnouncedLen(b[1]) == HeaderNeeds(b)
            && (if extra > 0 then FromBigEndian(b[2..2 + extra]) else b[1] % 128) == AnnouncedLength(b)
  {
    hide FromBigEndian;
    FormatOfByte(b[1]);
    if b[1] % 128 == 126 {
      FromTwoBytes(b[2..4]);
    } else if b[1] % 128 == 127 {
      FromEightBytes(b[2..10]);
    }
  }

  /**
   Reading a header, whatever bytes come: more are needed exactly while fewer are there than it takes; then a
   reserved operation code is refused by its number, and any other header reads as its bytes say.
   */
  lemma HeaderReads(b: Bytes)
    ensures ParseHeader(b).NeedMore? <==> |b| < 2 || |b| < HeaderNeeds(b)
    ensures !ParseHeader(b).NeedMore? ==>
              var n, p := b[0] % 16, ParseHeader(b);
              if 3 <= n <= 7 || 11 <= n <= 15 then p == BadOpcode(n, HeaderNeeds(b))
              else
                && p.Parsed? && p.consumed == HeaderNeeds(b) && p.length == AnnouncedLength(b)
                && FirstByteOf(p.header, b[0]) && (p.header.mask.Some? <==> b[1] >= 128)
                && (b[1] >= 128 ==> p.header.mask.value == b[p.consumed - 4..p.consumed])
  {
    hide FromBigEndian, HeaderOf, FormatForByte, FirstByteOf, AnnouncedLen;
    if |b| >= 2 {
      FormatOfByte(b[1]);
      var needs := HeaderNeeds(b);
      assert AnnouncedLen(b[1]) == needs by { AnnouncedLenIs(b); }
      if |b| >= needs {
        AnnouncedIs(b);
        HeaderOfByte(b[0], if b[1] >= 0x80 then Some(b[needs - 4..needs]) else None);
      }
    }
  }

  lemma AnnouncedLenIs(b: Bytes)
    requires |b| >= 2
    ensures AnnouncedLen(b[1]) == HeaderNeeds(b)
  {
    FormatOfByte(b[1]);
  }

  // ---------------------------------------------------------------- payloads

  /** Bit `k` of a number. */
  function BitAt(x: nat, k: nat): nat
    decreases k
  {
    if k == 0 then x % 2 else BitAt(x / 2, k - 1)
  }

  /** Exclusive or, bit by bit. */
  lemma {:induction false} XorBits(a: nat, b: nat, k: nat)
    ensures BitAt(Xor(a, b), k) == (BitAt(a, k) + BitAt(b, k)) % 2
    decreases k
  {
    hide Xor;
    XorUnfolds(a, b);
    var x := (a + b) % 2 + 2 * Xor(a / 2, b / 2);
    assert x % 2 == (a + b) % 2 && x / 2 == Xor(a / 2, b / 2);
    if k == 0 {
      assert (a + b) % 2 == (a % 2 + b % 2) % 2;
    } else {
      XorBits(a / 2, b / 2, k - 1);
    }
  }

  lemma XorByteIsXor(a: Byte, b: Byte)
    ensures XorByte(a, b) as nat == Xor(a, b)
  {
    hide Xor;
  }

  lemma MaskedBits(x: Byte, m: Byte)
    ensures forall k: nat :: BitAt(XorByte(x, m), k) == (BitAt(x, k) + BitAt(m, k)) % 2
  {
    hide XorByte, Xor, BitAt;
    XorByteIsXor(x, m);
    forall k: nat ensures BitAt(XorByte(x, m), k) == (BitAt(x, k) + BitAt(m, k)) % 2 {
      XorBits(x, m, k);
    }
  }

  /** Behind the header, the payload as it goes out. */
  lemma PayloadOnTheWire(f: Frame, i: nat)
    requires i < |f.payload|
    ensures var b, h := FormatFrame(f), FormatHeader(f.header, |f.payload|);
            && |b| == |h| + |f.payload| && b[..|h|] == h
            && b[|h| + i] == if f.header.mask.Some? then XorByte(f.payload[i], f.header.mask.value[i % 4])
                             else f.payload[i]
  {
    hide FormatHeader, XorByte;
  }

  /**
   A formatted frame: the header bytes, then the payload, each byte as it is or, under a mask, with the bits of
   the mask byte of its place turned over (section 5.3 of RFC 6455).
   */
  lemma FrameOnTheWire(f: Frame, i: nat)
    requires |f.payload| < USIZE_LIMIT && i < |f.payload|
    ensures var b := FormatFrame(f);
            var n := |b| - |f.payload|;
            && n >= 2 && HeaderBytes(f.header, |f.payload|, b[..n])
            && (f.header.mask.None? ==> b[n + i] == f.payload[i])
            && (f.header.mask.Some? ==>
                  var m := f.header.mask.value[i % 4];
                  forall k: nat :: BitAt(b[n + i], k) == (BitAt(f.payload[i], k) + BitAt(m, k)) % 2)
  {
    hide FormatFrame, FormatHeader, HeaderBytes, BitAt, XorByte;
    var h := FormatHeader(f.header, |f.payload|);
    HeaderOnTheWire(f.header, |f.payload|);
    HeaderHasTwo(f.header, |f.payload|, h);
    PayloadOnTheWire(f, i);
    if f.header.mask.Some? {
      MaskedBits(f.payload[i], f.header.mask.value[i % 4]);
    }
  }

  lemma HeaderHasTwo(h: Header, length: nat, b: Bytes)
    requires HeaderBytes(h, length, b)
    ensures |b| >= 2
  {
  }

  // ---------------------------------------------------------------- close frames

  /** A Close with a reason: its number in two bytes, the high one first, then the text (section 5.5.1 of RFC 6455). */
  lemma CloseOnTheWire(r: CloseReason)
    ensures var n: int := r.code.Number();
            CloseFrame(Some(r))
            == Some(Frame(Header(true, false, false, false, Control(ControlOp.Close), None),
                          [n / 256, n % 256] + r.reason))
  {
    hide BigEndian;
    TwoBytes(r.code.Number());
  }

  /** Any payload of a Close: nothing, half a number, or a number and a text. */
  lemma CloseReads(payload: Bytes)
    ensures match ReadClose(payload)
            case NoReason => payload == []
            case InvalidSequence => |payload| == 1
            case Reason(r) =>
              && |payload| >= 2 && r.reason == payload[2..]
              && r.code.Number() as int == 256 * (payload[0] as int) + payload[1] as int
  {
    hide CloseCodeOf;
  }
}

/** Text: the decoder accepts exactly the encodings of Unicode scalar values (section 3 of RFC 3629). */
module TextForms {
  import opened Base
  import opened Utf8Text

  type Scalar = c: int | 0 <= c < 0x11_0000 && !(0xD800 <= c < 0xE000)

  function EncodeChar(c: Scalar): Bytes {
    if c < 0x80 then [c]
    else if c < 0x800 then [0xC0 + c / 64, 0x80 + c % 64]
    else if c < 0x1_0000 then [0xE0 + c / 4096, 0x80 + c / 64 % 64, 0x80 + c % 64]
    else [0xF0 + c / 0x4_0000, 0x80 + c / 4096 % 64, 0x80 + c / 64 % 64, 0x80 + c % 64]
  }

  function EncodeText(text: seq<Scalar>): Bytes {
    if text == [] then [] else EncodeChar(text[0]) + EncodeText(text[1..])
  }

  lemma EncodedCharLeads(c: Scalar, tail: Bytes)
    ensures LeadOf(EncodeChar(c) + tail) == Char(|EncodeChar(c)|)
  {
    var e := EncodeChar(c);
    assert e[0] == (e + tail)[0];
    if c >= 0x80 {
      EncodedCharFits(c);
      assert e[1] == (e + tail)[1];
    }
    if c >= 0x800 {
      assert e[2] == (e + tail)[2];
    }
    if c >= 0x1_0000 {
      assert e[3] == (e + tail)[3];
    }
    hide EncodeChar, SecondFits;
  }

  lemma EncodedCharFits(c: Scalar)
    requires c >= 0x80
    ensures var e := EncodeChar(c);
            && |e| == SequenceLen(e[0]) && SecondFits(e[0], e[1])
            && (|e| >= 3 ==> IsTail(e[2])) && (|e| >= 4 ==> IsTail(e[3]))
  {
    if c >= 0x1_0000 {
      FourFit(c);
    } else if c >= 0x800 {
      ThreeFit(c);
    }
  }

  lemma ThreeFit(c: Scalar)
    requires 0x800 <= c < 0x1_0000
    ensures 0 <= c / 4096 < 16 && SecondFits(0xE0 + c / 4096, 0x80 + c / 64 % 64)
  {
    var d := c / 64;
    assert c / 4096 == d / 64 && d == 64 * (d / 64) + d % 64;
    assert 0x20 <= d < 0x400 && !(0x360 <= d < 0x380);
  }

  lemma FourFit(c: Scalar)
    requires 0x1_0000 <= c
    ensures 0 <= c / 0x4_0000 < 5 && SecondFits(0xF0 + c / 0x4_0000, 0x80 + c / 4096 % 64)
  {
    var d := c / 4096;
    assert c / 0x4_0000 == d / 64 && d == 64 * (d / 64) + d % 64;
    assert 0x10 <= d < 0x110;
  }

  lemma TwoByteChar(a: Byte, b: Byte)
    requires 0xC2 <= a <= 0xDF && IsTail(b)
    ensures var c := 64 * (a - 0xC0) + (b - 0x80); 0x80 <= c < 0x800 && EncodeChar(c) == [a, b]
  {
  }

  lemma ThreeByteChar(a: Byte, b: Byte, d: Byte)
    requires 0xE0 <= a <= 0xEF && SecondFits(a, b) && IsTail(b) && IsTail(d)
    ensures var c := 4096 * (a - 0xE0) + 64 * (b - 0x80) + (d - 0x80);
            0x800 <= c < 0x1_0000 && !(0xD800 <= c < 0xE000) && EncodeChar(c) == [a, b, d]
  {
    ThreeDigits(a - 0xE0, b - 0x80, d - 0x80);
  }

  lemma ThreeDigits(p: nat, q: nat, r: nat)
    requires q < 64 && r < 64
    ensures var c := 4096 * p + 64 * q + r; c % 64 == r && c / 64 % 64 == q && c / 4096 == p
  {
    var x := 64 * p + q;
    assert (64 * x + r) / 64 == x && (64 * x + r) % 64 == r;
    assert x / 64 == p && x % 64 == q;
  }

  lemma FourDigits(p: nat, q: nat, r: nat, t: nat)
    requires q < 64 && r < 64 && t < 64
    ensures var c := 64 * (64 * (64 * p + q) + r) + t;
            c % 64 == t && c / 64 % 64 == r && c / 4096 % 64 == q && c / 0x4_0000 == p
  {
    var x := 64 * p + q;
    var y := 64 * x + r;
    var c := 64 * y + t;
    assert c / 64 == y && c % 64 == t;
    assert y / 64 == x && y % 64 == r;
    assert x / 64 == p && x % 64 == q;
    assert c / 4096 == y / 64 && c / 0x4_0000 == x / 64;
  }

  lemma FourByteChar(a: Byte, b: Byte, d: Byte, e: Byte)
    requires 0xF0 <= a <= 0xF4 && SecondFits(a, b) && IsTail(b) && IsTail(d) && IsTail(e)
    ensures var c := 64 * (64 * (64 * (a - 0xF0) + (b - 0x80)) + (d - 0x80)) + (e - 0x80);
            0x1_0000 <= c < 0x11_0000 && EncodeChar(c) == [a, b, d, e]
  {
    FourDigits(a - 0xF0, b - 0x80, d - 0x80, e - 0x80);
  }

  lemma SecondIsTail(a: Byte, b: Byte)
    requires SecondFits(a, b)
    ensures IsTail(b)
  {
  }

  /** What leads is the encoding of a scalar value. */
  lemma LeadIsChar(b: Bytes) returns (c: Scalar)
    requires b != [] && LeadOf(b).Char?
    ensures EncodeChar(c) == b[..LeadOf(b).len]
  {
    hide EncodeChar;
    var n := LeadOf(b).len;
    var w: int := b[0];
    if n == 1 {
      c := b[0];
      OneByteChar(c);
    } else {
      SecondIsTail(b[0], b[1]);
      var x: int := b[1];
      if n == 2 {
        TwoByteChar(b[0], b[1]);
        c := 64 * (w - 0xC0) + (x - 0x80);
      } else {
        var y: int := b[2];
        if n == 3 {
          ThreeByteChar(b[0], b[1], b[2]);
          c := 4096 * (w - 0xE0) + 64 * (x - 0x80) + (y - 0x80);
        } else {
          var z: int := b[3];
          FourByteChar(b[0], b[1], b[2], b[3]);
          c := 64 * (64 * (64 * (w - 0xF0) + (x - 0x80)) + (y - 0x80)) + (z - 0x80);
        }
      }
    }
  }

  lemma OneByteChar(c: Scalar)
    requires c < 0x80
    ensures EncodeChar(c) == [c]
  {
  }

  lemma {:induction false} EncodedIsWellFormed(text: seq<Scalar>)
    ensures WellFormed(EncodeText(text))
  {
    hide LeadOf, EncodeChar;
    if text != [] {
      var c, rest := text[0], EncodeText(text[1..]);
      EncodedCharLeads(c, rest);
      EncodedIsWellFormed(text[1..]);
      var all := EncodeText(text);
      assert |EncodeChar(c)| >= 1 by { CharHasBytes(c); }
      assert all[|EncodeChar(c)|..] == rest;
    }
  }

  lemma CharHasBytes(c: Scalar)
    ensures |EncodeChar(c)| >= 1
  {
  }

  lemma {:induction false} WellFormedIsEncoded(b: Bytes) returns (text: seq<Scalar>)
    requires WellFormed(b)
    ensures EncodeText(text) == b
    decreases |b|
  {
    hide LeadOf, EncodeChar;
    text := [];
    if b != [] {
      var n := LeadOf(b).len;
      var c := LeadIsChar(b);
      var rest := WellFormedIsEncoded(b[n..]);
      text := [c] + rest;
      assert text[1..] == rest && b == b[..n] + b[n..];
    }
  }

  /** Well-formed text is exactly what encodes some sequence of scalar values. */
  lemma WellFormedIff(b: Bytes)
    ensures WellFormed(b) <==> exists text: seq<Scalar> :: EncodeText(text) == b
  {
    hide EncodeText, WellFormed;
    if WellFormed(b) {
      var text := WellFormedIsEncoded(b);
    }
    forall text: seq<Scalar> | EncodeText(text) == b ensures WellFormed(b) {
      EncodedIsWellFormed(text);
    }
  }
}

/** The size prefix: little-endian groups of seven bits, each but the last marked. */
module SizeForms {
  import opened Base
  import opened Encoding

  /** The size that the first `count` groups spell. */
  function SizeOf(data: Bytes, count: nat): nat
    requires count <= |data|
  {
    if count == 0 then 0 else SizeOf(data, count - 1) + Pow(count - 1) * (data[count - 1] % 128)
  }

  function Pow(k: nat): nat {
    if k == 0 then 1 else 128 * Pow(k - 1)
  }

  /** `count` bytes that end a size: the last is not marked, all before it are. */
  predicate Ends(data: Bytes, count: nat) {
    0 < count <= |data| && data[count - 1] < 128 && forall i | 0 <= i < count - 1 :: data[i] >= 128
  }

  lemma {:induction false} ScanSpells(data: Bytes, i: nat, count: nat)
    requires i < count <= 10 && Ends(data, count)
    ensures ScanVar(data, i).Some? && ScanVar(data, i).value.used == count
    ensures SizeOf(data, count) == SizeOf(data, i) + Pow(i) * ScanVar(data, i).value.expected
    decreases count - i
  {
    if i < count - 1 {
      ScanSpells(data, i + 1, count);
      var rest, d := ScanVar(data, i + 1).value.expected, data[i] as int - 128;
      assert data[i] as int % 128 == d;
      MarkedGroup(Pow(i), d, rest);
    }
  }

  lemma MarkedGroup(p: nat, d: int, rest: nat)
    ensures p * d + 128 * p * rest == p * (d + 128 * rest)
  {
  }

  lemma {:induction false} ScanNeedsEnd(data: Bytes, i: nat)
    requires forall j | 0 <= j < i && j < |data| :: data[j] >= 128
    ensures ScanVar(data, i).Some? ==> Ends(data, ScanVar(data, i).value.used)
    decreases |data| - i
  {
    if i < |data| && i < 10 && data[i] >= 128 {
      ScanNeedsEnd(data, i + 1);
    }
  }

  /**
   A size is read exactly when one of the first ten bytes ends it; it is the number that the groups spell,
   as far as a 64-bit number holds it, and the bytes used are those up to that end.
   */
  lemma SizeReads(data: Bytes, count: nat)
    requires Ends(data, count)
    ensures if count <= 10 then DecodeSize(data) == Some(SizeInfo(SizeOf(data, count) % USIZE_LIMIT, count))
            else DecodeSize(data) == None
  {
    if count <= 10 {
      ScanSpells(data, 0, count);
    } else {
      ScanNeedsEnd(data, 0);
      OneEnd(data, count);
    }
  }

  lemma OneEnd(data: Bytes, count: nat)
    requires Ends(data, count)
    ensures forall other: nat :: Ends(data, other) ==> other == count
  {
  }

  lemma NoSizeReads(data: Bytes)
    requires forall count: nat :: !Ends(data, count)
    ensures DecodeSize(data) == None
  {
    ScanNeedsEnd(data, 0);
  }

  lemma {:induction false} EncodedEnds(n: nat)
    ensures Ends(EncodeVar(n), |EncodeVar(n)|)
  {
    if n >= 128 {
      EncodedEnds(n / 128);
      var rest := EncodeVar(n / 128);
      assert EncodeVar(n)[1..] == rest;
      assert forall i | 0 <= i < |rest| :: EncodeVar(n)[i + 1] == rest[i];
    }
  }

  /** The bytes written for a size end it, spell it, and are as few as can be. */
  lemma SizeWrites(message: Bytes)
    requires |message| < USIZE_LIMIT
    ensures var b := EncodeSize(message);
            && Ends(b, |b|) && SizeOf(b, |b|) % USIZE_LIMIT == |message|
            && (|b| > 1 ==> b[|b| - 1] > 0)
  {
    hide ScanVar, EncodeVar;
    var b := EncodeSize(message);
    EncodedEnds(|message|);
    SizeRoundTrip(message, []);
    assert b + [] == b;
    SizeReads(b, |b|);
    LastGroupCounts(|message|);
  }

  lemma {:induction false} LastGroupCounts(n: nat)
    ensures |EncodeVar(n)| >= 1 && (|EncodeVar(n)| > 1 ==> EncodeVar(n)[|EncodeVar(n)| - 1] > 0)
  {
    if n >= 128 {
      LastGroupCounts(n / 128);
      var rest := EncodeVar(n / 128);
      assert EncodeVar(n)[|rest|] == rest[|rest| - 1];
      if |rest| == 1 {
        assert n / 128 < 128;
      }
    }
  }
}
