/**
 Operation codes and close codes of `src/adapters/ws/protocol/frame/coding.rs` (sections 5.2 and 7.4 of RFC 6455).
 */
module Coding {

  type ReservedDataCode = x: int | 3 <= x <= 7 witness 3
  type ReservedControlCode = x: int | 11 <= x <= 15 witness 11

  datatype DataOp = Continue | Text | Binary | ReservedData(code: ReservedDataCode)
  datatype ControlOp = Close | Ping | Pong | ReservedControl(code: ReservedControlCode)

  datatype OpCode = Data(data: DataOp) | Control(control: ControlOp) {
    predicate IsReserved() {
      (Data? && data.ReservedData?) || (Control? && control.ReservedControl?)
    }
  }

  type Nibble = x: int | 0 <= x < 16

  function OpCodeNumber(op: OpCode): Nibble {
    match op
    case Data(Continue) => 0
    case Data(Text) => 1
    case Data(Binary) => 2
    case Data(ReservedData(i)) => i
    case Control(Close) => 8
    case Control(Ping) => 9
    case Control(Pong) => 10
    case Control(ReservedControl(i)) => i
  }

  function OpCodeOf(number: Nibble): (op: OpCode)
    ensures OpCodeNumber(op) == number
  {
    if number == 0 then Data(Continue)
    else if number == 1 then Data(Text)
    else if number == 2 then Data(Binary)
    else if number <= 7 then Data(ReservedData(number))
    else if number == 8 then Control(Close)
    else if number == 9 then Control(Ping)
    else if number == 10 then Control(Pong)
    else Control(ReservedControl(number))
  }

  type U16 = x: int | 0 <= x < 0x1_0000

  datatype CloseCode =
    | Normal | Away | Protocol | Unsupported | Status | Abnormal | Invalid | Policy | Size
    | Extension | Error | Restart | Again | Tls
    | Reserved(code: U16) | Iana(code: U16) | Library(code: U16) | Bad(code: U16)
  {
    predicate IsAllowed() {
      !(Bad? || Reserved? || Status? || Abnormal? || Tls?)
    }

    function Number(): U16 {
      match this
      case Normal => 1000
      case Away => 1001
      case Protocol => 1002
      case Unsupported => 1003
      case Status => 1005
      case Abnormal => 1006
      case Invalid => 1007
      case Policy => 1008
      case Size => 1009
      case Extension => 1010
      case Error => 1011
      case Restart => 1012
      case Again => 1013
      case Tls => 1015
      case Reserved(c) => c
      case Iana(c) => c
      case Library(c) => c
      case Bad(c) => c
    }
  }

  /** Every 16-bit number has one reading; the allowed ones are those an endpoint may put on the wire. */
  function CloseCodeOf(n: U16): (c: CloseCode)
    ensures c.Number() == n
    ensures c.IsAllowed() <==> 1000 <= n <= 1003 || 1007 <= n <= 1013 || 3000 <= n <= 4999
  {
    if n == 1000 then Normal
    else if n == 1001 then Away
    else if n == 1002 then Protocol
    else if n == 1003 then Unsupported
    else if n == 1005 then Status
    else if n == 1006 then Abnormal
    else if n == 1007 then Invalid
    else if n == 1008 then Policy
    else if n == 1009 then Size
    else if n == 1010 then Extension
    else if n == 1011 then Error
    else if n == 1012 then Restart
    else if n == 1013 then Again
    else if n == 1015 then Tls
    else if 1 <= n <= 999 then Bad(n)
    else if 1016 <= n <= 2999 then Reserved(n)
    else if 3000 <= n <= 3999 then Iana(n)
    else if 4000 <= n <= 4999 then Library(n)
    else Bad(n)
  }
}

/**
 Frame headers and frames (`src/adapters/ws/protocol/frame/frame.rs`), section 5.2 of RFC 6455.
 */
module Frames {
  import opened Base
  import opened Coding
  import opened Masking

  datatype Header = Header(fin: bool, rsv1: bool, rsv2: bool, rsv3: bool, opcode: OpCode, mask: Option<Mask>)

  datatype Frame = Frame(header: Header, payload: Bytes) {
    predicate Is(op: OpCode) {
      header.opcode == op
    }

    function Len(): nat {
      HeaderLen(header, |payload|) + |payload|
    }
  }

  const DEFAULT_HEADER := Header(true, false, false, false, Control(Close), None)

  // ---------------------------------------------------------------- lengths

  datatype LengthFormat = U8(byte: Byte) | U16 | U64 {
    function ExtraBytes(): nat {
      match this case U8(_) => 0 case U16 => 2 case U64 => 8
    }

    function LengthByte(): Byte {
      match this case U8(b) => b case U16 => 126 case U64 => 127
    }
  }

  function FormatForLength(length: nat): (f: LengthFormat)
    ensures f.LengthByte() < 128
  {
    if length < 126 then LengthFormat.U8(length)
    else if length < 65536 then LengthFormat.U16
    else LengthFormat.U64
  }

  function FormatForByte(b: Byte): LengthFormat {
    if b % 128 == 126 then LengthFormat.U16
    else if b % 128 == 127 then LengthFormat.U64
    else LengthFormat.U8(b % 128)
  }

  /** The low `count` bytes of `n`, most significant first. */
  function BigEndian(n: nat, count: nat): (b: Bytes)
    ensures |b| == count
    decreases count
  {
    if count == 0 then [] else BigEndian(n / 256, count - 1) + [n % 256]
  }

  function FromBigEndian(b: Bytes): nat {
    if b == [] then 0 else 256 * FromBigEndian(b[..|b| - 1]) + b[|b| - 1]
  }

  ghost function Pow256(count: nat): nat
    decreases count
  {
    if count == 0 then 1 else 256 * Pow256(count - 1)
  }

  lemma {:induction false} BigEndianRoundTrip(n: nat, count: nat)
    requires n < Pow256(count)
    ensures FromBigEndian(BigEndian(n, count)) == n
    decreases count
  {
    if count > 0 {
      BigEndianRoundTrip(n / 256, count - 1);
      var b := BigEndian(n, count);
      assert b[..|b| - 1] == BigEndian(n / 256, count - 1);
    }
  }

  // ---------------------------------------------------------------- headers

  function HeaderLen(h: Header, length: nat): nat {
    2 + FormatForLength(length).ExtraBytes() + if h.mask.Some? then 4 else 0
  }

  function Bit(on: bool, weight: nat): nat {
    if on then weight else 0
  }

  function FirstByte(h: Header): Byte {
    OpCodeNumber(h.opcode) + Bit(h.fin, 0x80) + Bit(h.rsv1, 0x40) + Bit(h.rsv2, 0x20) + Bit(h.rsv3, 0x10)
  }

  function FormatHeader(h: Header, length: nat): Bytes {
    var format := FormatForLength(length);
    [FirstByte(h), format.LengthByte() + Bit(h.mask.Some?, 0x80)]
    + BigEndian(length, format.ExtraBytes())
    + (if h.mask.Some? then h.mask.value else [])
  }

  datatype ParsedHeader =
    | NeedMore
    | BadOpcode(number: Nibble, consumed: nat)
    | Parsed(header: Header, length: nat, consumed: nat)

  function HeaderOf(first: Byte, mask: Option<Mask>): Header {
    var flags := first / 16;
    Header(flags / 8 % 2 == 1, flags / 4 % 2 == 1, flags / 2 % 2 == 1, flags % 2 == 1, OpCodeOf(first % 16), mask)
  }

  /** How many bytes a header that starts with these two takes. */
  function AnnouncedLen(second: Byte): nat {
    2 + FormatForByte(second).ExtraBytes() + if second >= 0x80 then 4 else 0
  }

  function ParseHeader(b: Bytes): (r: ParsedHeader)
    ensures r.Parsed? ==> 2 <= r.consumed <= |b| && !r.header.opcode.IsReserved()
    ensures r.BadOpcode? ==> 2 <= r.consumed <= |b|
  {
    if |b| < 2 then NeedMore
    else
      var extra := FormatForByte(b[1]).ExtraBytes();
      if |b| < 2 + extra then NeedMore
      else
        var length := if extra > 0 then FromBigEndian(b[2..2 + extra]) else b[1] % 128;
        var consumed := AnnouncedLen(b[1]);
        if |b| < consumed then NeedMore
        else
          var mask := if b[1] >= 0x80 then Some(b[2 + extra..6 + extra]) else None;
          var header := HeaderOf(b[0], mask);
          if header.opcode.IsReserved() then BadOpcode(b[0] % 16, consumed)
          else Parsed(header, length, consumed)
  }

  lemma OpCodeRoundTrip(op: OpCode)
    ensures OpCodeOf(OpCodeNumber(op)) == op
  {
  }

  lemma SplitNibble(low: Nibble, high: Nibble)
    ensures (low + 16 * high) % 16 == low && (low + 16 * high) / 16 == high
  {
  }

  lemma FirstByteRoundTrip(h: Header)
    ensures HeaderOf(FirstByte(h), h.mask) == h
  {
    hide OpCodeNumber, OpCodeOf;
    OpCodeRoundTrip(h.opcode);
    SplitNibble(OpCodeNumber(h.opcode), Bit(h.fin, 8) + Bit(h.rsv1, 4) + Bit(h.rsv2, 2) + Bit(h.rsv3, 1));
    FlagBits(h.fin, h.rsv1, h.rsv2, h.rsv3);
  }

  lemma FlagBits(a: bool, b: bool, c: bool, d: bool)
    ensures var flags := Bit(a, 8) + Bit(b, 4) + Bit(c, 2) + Bit(d, 1);
            (flags / 8 % 2 == 1, flags / 4 % 2 == 1, flags / 2 % 2 == 1, flags % 2 == 1) == (a, b, c, d)
  {
  }

  /** The second byte announces the header length that `HeaderLen` computes. */
  lemma SecondByteRoundTrip(h: Header, length: nat)
    ensures var format := FormatForLength(length);
            var second := format.LengthByte() + Bit(h.mask.Some?, 0x80);
            && FormatForByte(second) == format
            && (second >= 0x80 <==> h.mask.Some?)
            && AnnouncedLen(second) == HeaderLen(h, length)
            && (format.U8? ==> second % 128 == length)
  {
  }

  lemma FourParts(x: Bytes, y: Bytes, z: Bytes, t: Bytes)
    requires |x| == 2
    ensures var b := x + y + z + t;
            && b[0] == x[0] && b[1] == x[1] && |b| >= 2 + |y| + |z|
            && b[2..2 + |y|] == y && b[2 + |y|..2 + |y| + |z|] == z
  {
  }

  /** Where the parts of a formatted header are. */
  lemma HeaderParts(h: Header, length: nat, tail: Bytes)
    ensures |FormatHeader(h, length)| == HeaderLen(h, length)
    ensures var b, extra := FormatHeader(h, length) + tail, FormatForLength(length).ExtraBytes();
            && |b| >= HeaderLen(h, length)
            && b[0] == FirstByte(h)
            && b[1] == FormatForLength(length).LengthByte() + Bit(h.mask.Some?, 0x80)
            && b[2..2 + extra] == BigEndian(length, extra)
            && (h.mask.Some? ==> b[2 + extra..6 + extra] == h.mask.value)
  {
    hide FormatForLength, FirstByte, BigEndian;
    var format := FormatForLength(length);
    var first := [FirstByte(h), format.LengthByte() + Bit(h.mask.Some?, 0x80)];
    FourParts(first, BigEndian(length, format.ExtraBytes()), if h.mask.Some? then h.mask.value else [], tail);
  }

  /** Parsing a formatted header gives it back, whatever follows, and consumes exactly its length. */
  lemma HeaderRoundTrip(h: Header, length: nat, tail: Bytes)
    requires !h.opcode.IsReserved() && length < USIZE_LIMIT
    ensures |FormatHeader(h, length)| == HeaderLen(h, length)
    ensures ParseHeader(FormatHeader(h, length) + tail) == Parsed(h, length, HeaderLen(h, length))
  {
    hide FormatForLength, FormatForByte, FromBigEndian, BigEndian, FirstByte, HeaderOf, FormatHeader, Bit;
    HeaderParts(h, length, tail);
    SecondByteRoundTrip(h, length);
    FirstByteRoundTrip(h);
    LengthRoundTrip(length);
  }

  lemma TwoMoreBytes(count: nat)
    ensures Pow256(count + 2) == 65536 * Pow256(count)
  {
    assert Pow256(count + 2) == 256 * Pow256(count + 1);
  }

  lemma PowersOf256()
    ensures Pow256(0) == 1 && Pow256(2) == 65536 && Pow256(8) == USIZE_LIMIT
  {
    TwoMoreBytes(0);
    TwoMoreBytes(2);
    TwoMoreBytes(4);
    TwoMoreBytes(6);
  }

  lemma LengthRoundTrip(length: nat)
    requires length < USIZE_LIMIT
    ensures var extra := FormatForLength(length).ExtraBytes();
            extra > 0 ==> FromBigEndian(BigEndian(length, extra)) == length
  {
    hide FromBigEndian, BigEndian;
    var extra := FormatForLength(length).ExtraBytes();
    PowersOf256();
    if extra > 0 {
      BigEndianRoundTrip(length, extra);
    }
  }

  /** What a header parses to is settled by its own bytes. */
  lemma ParseStable(b: Bytes, tail: Bytes)
    ensures !ParseHeader(b).NeedMore? ==> ParseHeader(b + tail) == ParseHeader(b)
    ensures ParseHeader(b).NeedMore? && !ParseHeader(b + tail).NeedMore?
            ==> |b| < ParseHeader(b + tail).consumed
  {
    hide FromBigEndian, HeaderOf, FormatForByte;
    if |b| >= 2 {
      assert (b + tail)[0] == b[0] && (b + tail)[1] == b[1];
      var extra := FormatForByte(b[1]).ExtraBytes();
      if |b| >= 2 + extra {
        assert (b + tail)[2..2 + extra] == b[2..2 + extra];
        if |b| >= 6 + extra {
          assert (b + tail)[2 + extra..6 + extra] == b[2 + extra..6 + extra];
        }
      }
    }
  }

  /** No strict prefix of a formatted header parses. */
  lemma HeaderPrefix(h: Header, length: nat, k: nat)
    requires !h.opcode.IsReserved() && length < USIZE_LIMIT && k < HeaderLen(h, length)
    ensures k < |FormatHeader(h, length)| && ParseHeader(FormatHeader(h, length)[..k]) == NeedMore
  {
    hide FormatHeader, ParseHeader, HeaderLen;
    var f := FormatHeader(h, length);
    HeaderRoundTrip(h, length, []);
    assert f + [] == f == f[..k] + f[k..];
    ParseStable(f[..k], f[k..]);
  }

  // ---------------------------------------------------------------- frames

  function FormatFrame(f: Frame): Bytes {
    FormatHeader(f.header, |f.payload|)
    + (if f.header.mask.Some? then Masked(f.payload, f.header.mask.value) else f.payload)
  }

  /** What a receiver holds before unmasking. */
  function OnTheWire(f: Frame): Frame {
    if f.header.mask.Some? then f.(payload := Masked(f.payload, f.header.mask.value)) else f
  }

  /** `apply_mask`: unmask the payload and drop the mask. */
  function ApplyMask(f: Frame): Frame {
    if f.header.mask.Some?
    then Frame(f.header.(mask := None), Masked(f.payload, f.header.mask.value))
    else f
  }

  lemma UnmaskOnTheWire(f: Frame)
    ensures ApplyMask(OnTheWire(f)) == f.(header := f.header.(mask := None))
  {
    if f.header.mask.Some? {
      MaskedTwice(f.payload, f.header.mask.value);
    }
  }

  lemma FrameLenIsFormatted(f: Frame)
    ensures |FormatFrame(f)| == f.Len()
  {
  }

  function MessageFrame(payload: Bytes, op: DataOp, fin: bool): Frame {
    Frame(DEFAULT_HEADER.(fin := fin, opcode := Data(op)), payload)
  }

  function PongFrame(payload: Bytes): Frame {
    Frame(DEFAULT_HEADER.(opcode := Control(Pong)), payload)
  }

  function PingFrame(payload: Bytes): Frame {
    Frame(DEFAULT_HEADER.(opcode := Control(Ping)), payload)
  }

  datatype CloseReason = CloseReason(code: CloseCode, reason: Bytes)

  /** A close without a code makes no frame at all. */
  function CloseFrame(reason: Option<CloseReason>): Option<Frame> {
    match reason
    case None => None
    case Some(r) => Some(Frame(DEFAULT_HEADER, BigEndian(r.code.Number(), 2) + r.reason))
  }

  function U16Of(high: Byte, low: Byte): U16 {
    256 * (high as int) + low as int
  }

  datatype IntoClose = NoReason | InvalidSequence | Reason(reason: CloseReason)

  function ReadClose(payload: Bytes): IntoClose {
    if |payload| == 0 then NoReason
    else if |payload| == 1 then InvalidSequence
    else Reason(CloseReason(CloseCodeOf(U16Of(payload[0], payload[1])), payload[2..]))
  }

  /** Reading the payload of a close frame gives back its code, by number, and its reason. */
  lemma CloseRoundTrip(r: CloseReason)
    ensures ReadClose(CloseFrame(Some(r)).value.payload)
         == Reason(CloseReason(CloseCodeOf(r.code.Number()), r.reason))
  {
    hide CloseCodeOf;
    var n := r.code.Number();
    assert BigEndian(n, 2) == [n / 256 % 256, n % 256] by {
      assert BigEndian(n / 256, 1) == [n / 256 % 256];
    }
    assert U16Of(n / 256 % 256, n % 256) == n;
  }
}
