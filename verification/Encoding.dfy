/**
 The length-prefixed message stream of `src/util/encoding.rs`.

 `Cut` is the simple reading of a byte stream: read a size, take that many bytes, go on.  The `Decoder`
 reaches the same messages incrementally, chunk by chunk, through a copy-free path and a path that stores
 bytes and looks ahead.  `ChunkingIndependent` says for which streams the two agree under every chunking.
 */
module Encoding {
  import opened Base

  const MAX_ENCODED_SIZE: nat := 10

  // ---------------------------------------------------------------- sizes as unsigned LEB128

  function EncodeVar(n: nat): Bytes {
    if n < 128 then [n] else [n % 128 + 128] + EncodeVar(n / 128)
  }

  datatype SizeInfo = SizeInfo(expected: nat, used: nat)

  /** Reads a variable-length integer that starts at `i` and must end before index ten. */
  function ScanVar(data: Bytes, i: nat): (r: Option<SizeInfo>)
    ensures r.Some? ==> i < r.value.used <= |data| && r.value.used <= MAX_ENCODED_SIZE
    decreases |data| - i
  {
    if i >= |data| || i >= MAX_ENCODED_SIZE then None
    else if data[i] < 128 then Some(SizeInfo(data[i], i + 1))
    else
      match ScanVar(data, i + 1)
      case None => None
      case Some(rest) => Some(SizeInfo(data[i] - 128 + 128 * rest.expected, rest.used))
  }

  function EncodeSize(message: Bytes): Bytes {
    EncodeVar(|message|)
  }

  /** The size is a `usize`: the bits a tenth byte would put above the 64th are lost. */
  function DecodeSize(data: Bytes): (r: Option<SizeInfo>)
    ensures r.Some? ==> 1 <= r.value.used <= |data| && r.value.used <= MAX_ENCODED_SIZE
  {
    match ScanVar(data, 0)
    case None => None
    case Some(s) => Some(SizeInfo(s.expected % USIZE_LIMIT, s.used))
  }

  ghost function Pow128(k: nat): nat {
    if k == 0 then 1 else 128 * Pow128(k - 1)
  }

  /** Encoding then decoding is the identity, whatever comes before and after. */
  lemma {:induction false} ScanEncoded(before: Bytes, n: nat, tail: Bytes)
    requires |before| < MAX_ENCODED_SIZE && n < Pow128(MAX_ENCODED_SIZE - |before|)
    ensures ScanVar(before + EncodeVar(n) + tail, |before|) == Some(SizeInfo(n, |before + EncodeVar(n)|))
    decreases n
  {
    var all := before + EncodeVar(n) + tail;
    if n >= 128 {
      var b := n % 128 + 128;
      ScanEncoded(before + [b], n / 128, tail);
      assert all == before + [b] + EncodeVar(n / 128) + tail;
      assert before + EncodeVar(n) == before + [b] + EncodeVar(n / 128);
    }
  }

  lemma TwoMoreDigits(k: nat)
    ensures Pow128(k + 2) == 16384 * Pow128(k)
  {
    assert Pow128(k + 2) == 128 * Pow128(k + 1);
  }

  lemma TenDigitsSuffice()
    ensures Pow128(MAX_ENCODED_SIZE) >= USIZE_LIMIT
  {
    TwoMoreDigits(0);
    TwoMoreDigits(2);
    TwoMoreDigits(4);
    TwoMoreDigits(6);
    TwoMoreDigits(8);
  }

  lemma EncodedDecodes(message: Bytes, tail: Bytes)
    requires |message| < USIZE_LIMIT
    ensures DecodeSize(EncodeSize(message) + tail) == Some(SizeInfo(|message|, |EncodeSize(message)|))
  {
    hide ScanVar, EncodeVar, Pow128;
    var e := EncodeSize(message);
    TenDigitsSuffice();
    ScanEncoded([], |message|, tail);
    assert [] + e + tail == e + tail && [] + e == e;
  }

  lemma SizeRoundTrip(message: Bytes, tail: Bytes)
    requires |message| < USIZE_LIMIT
    ensures DecodeSize(EncodeSize(message) + tail) == Some(SizeInfo(|message|, |EncodeSize(message)|))
    ensures forall k :: 0 <= k < |EncodeSize(message)| ==> DecodeSize(EncodeSize(message)[..k]) == None
    ensures |EncodeSize(message)| >= 2 ==> |message| >= 128
  {
    EncodedDecodes(message, tail);
    hide DecodeSize;
    var e := EncodeSize(message);
    forall k | 0 <= k < |e| ensures DecodeSize(e[..k]) == None {
      assert e + tail == e[..k] + (e[k..] + tail);
      DecodeStable(e[..k], e[k..] + tail);
    }
  }

  /** A size once decoded does not depend on what follows. */
  lemma {:induction false} ScanStable(data: Bytes, tail: Bytes, i: nat)
    ensures ScanVar(data, i).Some? ==> ScanVar(data + tail, i) == ScanVar(data, i)
    ensures ScanVar(data + tail, i).Some? && ScanVar(data + tail, i).value.used <= |data|
            ==> ScanVar(data, i) == ScanVar(data + tail, i)
    decreases |data| - i
  {
    if i < |data| {
      assert (data + tail)[i] == data[i];
      ScanStable(data, tail, i + 1);
    }
  }

  lemma DecodeStable(data: Bytes, tail: Bytes)
    ensures DecodeSize(data).Some? ==> DecodeSize(data + tail) == DecodeSize(data)
    ensures DecodeSize(data + tail).Some? && DecodeSize(data + tail).value.used <= |data|
            ==> DecodeSize(data) == DecodeSize(data + tail)
  {
    ScanStable(data, tail, 0);
  }

  // ---------------------------------------------------------------- the simple reading of a stream

  datatype Cutting = Cutting(messages: seq<Bytes>, rest: Bytes)

  function Cut(stream: Bytes): Cutting
    decreases |stream|
  {
    match DecodeSize(stream)
    case None => Cutting([], stream)
    case Some(SizeInfo(n, u)) =>
      if |stream| < u + n then Cutting([], stream)
      else
        var tail := Cut(stream[u + n..]);
        Cutting([stream[u..u + n]] + tail.messages, tail.rest)
  }

  /**
   No size header that takes several bytes announces so little that a ten-byte look-ahead would reach
   past its message, and no header is longer than ten bytes.
   */
  predicate Safe(stream: Bytes)
    decreases |stream|
  {
    match DecodeSize(stream)
    case None => |stream| <= MAX_ENCODED_SIZE
    case Some(SizeInfo(n, u)) =>
      && (u == 1 || u + n >= MAX_ENCODED_SIZE || |stream| <= u + n)
      && (|stream| >= u + n ==> Safe(stream[u + n..]))
  }

  lemma {:induction false} RestIsUncut(x: Bytes)
    ensures Cut(Cut(x).rest) == Cutting([], Cut(x).rest)
    decreases |x|
  {
    match DecodeSize(x)
    case None =>
    case Some(SizeInfo(n, u)) =>
      if |x| >= u + n {
        RestIsUncut(x[u + n..]);
      }
  }

  /** What was cut off never has to be looked at again. */
  lemma {:induction false} CutAppend(x: Bytes, y: Bytes)
    ensures Cut(x + y).messages == Cut(x).messages + Cut(Cut(x).rest + y).messages
    ensures Cut(x + y).rest == Cut(Cut(x).rest + y).rest
    decreases |x|
  {
    hide DecodeSize;
    DecodeStable(x, y);
    match DecodeSize(x)
    case None =>
    case Some(SizeInfo(n, u)) =>
      if |x| >= u + n {
        var x' := x[u + n..];
        CutHead(x, y, n, u);
        CutAppend(x', y);
        AppendAssoc([x[u..u + n]], Cut(x').messages, Cut(Cut(x').rest + y).messages);
      }
  }

  lemma AppendAssoc<T>(a: seq<T>, b: seq<T>, c: seq<T>)
    ensures a + (b + c) == (a + b) + c
  {
  }

  lemma CutHead(x: Bytes, y: Bytes, n: nat, u: nat)
    requires DecodeSize(x) == DecodeSize(x + y) == Some(SizeInfo(n, u)) && |x| >= u + n
    ensures var rest := Cut(x[u + n..] + y);
            Cut(x + y) == Cutting([x[u..u + n]] + rest.messages, rest.rest)
    ensures Safe(x + y) ==> Safe(x[u + n..] + y)
  {
    hide DecodeSize;
    assert (x + y)[u + n..] == x[u + n..] + y;
    assert (x + y)[u..u + n] == x[u..u + n];
  }

  lemma {:induction false} SafeRest(x: Bytes, y: Bytes)
    requires Safe(x + y)
    ensures Safe(Cut(x).rest + y)
    decreases |x|
  {
    hide DecodeSize;
    DecodeStable(x, y);
    match DecodeSize(x)
    case None =>
    case Some(SizeInfo(n, u)) =>
      if |x| >= u + n {
        CutHead(x, y, n, u);
        SafeRest(x[u + n..], y);
      }
  }

  lemma {:induction false} SafePrefix(x: Bytes, y: Bytes)
    requires Safe(x + y)
    ensures Safe(x)
    decreases |x|
  {
    hide DecodeSize;
    DecodeStable(x, y);
    match DecodeSize(x)
    case None =>
    case Some(SizeInfo(n, u)) =>
      if |x| >= u + n {
        assert (x + y)[u + n..] == x[u + n..] + y;
        SafePrefix(x[u + n..], y);
      }
  }

  // ---------------------------------------------------------------- the decoder, call by call

  datatype Stored = Waiting(stored: Bytes) | Completed(message: Bytes, remaining: Bytes)

  /** The path that stores bytes; `None` is a subtraction below zero. */
  function StoreAndDecode(stored: Bytes, data: Bytes): Option<Stored> {
    match DecodeSize(stored)
    case Some(size) => FinishStored(stored, data, size)
    case None =>
      if |stored| > MAX_ENCODED_SIZE then None
      else
        var ahead := Min(MAX_ENCODED_SIZE - |stored|, |data|);
        var longer := stored + data[..ahead];
        match DecodeSize(longer)
        case None => Some(Waiting(longer))
        case Some(size) => FinishStored(longer, data[ahead..], size)
  }

  function FinishStored(stored: Bytes, data: Bytes, size: SizeInfo): Option<Stored>
    requires size.used <= |stored|
  {
    if |stored| - size.used > size.expected then None
    else
      var remaining := size.expected - (|stored| - size.used);
      if |data| < remaining then Some(Waiting(stored + data))
      else Some(Completed((stored + data[..remaining])[size.used..], data[remaining..]))
  }

  /** One `decode` call on a decoder holding `stored`: the messages delivered and what it holds after. */
  function DecodeCall(stored: Bytes, data: Bytes): Option<Cutting> {
    if stored == [] then Some(Cut(data))
    else
      match StoreAndDecode(stored, data)
      case None => None
      case Some(Waiting(s)) => Some(Cutting([], s))
      case Some(Completed(message, remaining)) =>
        var tail := Cut(remaining);
        Some(Cutting([message] + tail.messages, tail.rest))
  }

  function DecodeCalls(stored: Bytes, chunks: seq<Bytes>): Option<Cutting>
    decreases chunks
  {
    if chunks == [] then Some(Cutting([], stored))
    else
      match DecodeCall(stored, chunks[0])
      case None => None
      case Some(first) =>
        match DecodeCalls(first.rest, chunks[1..])
        case None => None
        case Some(others) => Some(Cutting(first.messages + others.messages, others.rest))
  }

  /** One message off the front. */
  lemma CutUnfolds(x: Bytes)
    ensures var size := DecodeSize(x);
            if size.None? || |x| < size.value.used + size.value.expected then Cut(x) == Cutting([], x)
            else
              var used, end := size.value.used, size.value.used + size.value.expected;
              Cut(x) == Cutting([x[used..end]] + Cut(x[end..]).messages, Cut(x[end..]).rest)
  {
    hide DecodeSize;
  }

  lemma NothingToCut()
    ensures Cut([]) == Cutting([], [])
  {
  }

  /** On a safe stream one call does what cutting the stored bytes and the new ones would. */
  lemma DecodeCallCuts(stored: Bytes, data: Bytes)
    requires Cut(stored) == Cutting([], stored)
    requires Safe(stored + data)
    ensures DecodeCall(stored, data) == Some(Cut(stored + data))
  {
    hide DecodeSize, Cut, Safe, FinishStored;
    if stored == [] {
      assert stored + data == data;
    } else {
      var size := DecodeSize(stored);
      if size.Some? {
        CutUnfolds(stored);
        FinishCuts(stored, data, size.value);
        FinishedCallCuts(stored, data, size.value);
      } else {
        LookAheadCuts(stored, data);
      }
    }
  }

  /** The outcome of the storing path, for a stream `all` that begins with a message of this size. */
  function FinishedAs(all: Bytes, size: SizeInfo): Stored {
    if |all| < size.used + size.expected then Waiting(all)
    else Completed(all[size.used..size.used + size.expected], all[size.used + size.expected..])
  }

  lemma FinishedCallCuts(stored: Bytes, data: Bytes, size: SizeInfo)
    requires stored != [] && DecodeSize(stored + data) == Some(size)
    requires StoreAndDecode(stored, data) == Some(FinishedAs(stored + data, size))
    ensures DecodeCall(stored, data) == Some(Cut(stored + data))
  {
    hide DecodeSize, Cut, StoreAndDecode;
    CutUnfolds(stored + data);
  }

  /** In a safe stream the look-ahead stays within the message, and the header within the look-ahead. */
  lemma SafeLookAhead(all: Bytes)
    requires Safe(all)
    ensures var size := DecodeSize(all);
            if size.None? then |all| <= MAX_ENCODED_SIZE
            else size.value.used == 1 || size.value.used + size.value.expected >= MAX_ENCODED_SIZE
                 || |all| <= size.value.used + size.value.expected
  {
    hide DecodeSize;
  }

  lemma LookAheadCuts(stored: Bytes, data: Bytes)
    requires stored != [] && DecodeSize(stored) == None
    requires Safe(stored + data)
    ensures DecodeCall(stored, data) == Some(Cut(stored + data))
  {
    hide DecodeSize, Cut, Safe, FinishStored;
    SafePrefix(stored, data);
    SafeLookAhead(stored);
    SafeLookAhead(stored + data);
    var ahead := Min(MAX_ENCODED_SIZE - |stored|, |data|);
    var longer, left := stored + data[..ahead], data[ahead..];
    assert stored + data == longer + left;
    DecodeStable(longer, left);
    var size := DecodeSize(longer);
    if size.None? {
      assert longer == stored + data;
      CutUnfolds(longer);
    } else {
      DecodeStable(stored, data[..ahead]);
      FinishCuts(longer, left, size.value);
      FinishedCallCuts(stored, data, size.value);
    }
  }

  lemma FinishCuts(stored: Bytes, data: Bytes, size: SizeInfo)
    requires DecodeSize(stored) == Some(size) && |stored| - size.used <= size.expected
    ensures FinishStored(stored, data, size) == Some(FinishedAs(stored + data, size))
    ensures DecodeSize(stored + data) == Some(size)
  {
    hide DecodeSize;
    DecodeStable(stored, data);
    var remaining := size.expected - (|stored| - size.used);
    if |data| >= remaining {
      assert (stored + data[..remaining])[size.used..] == (stored + data)[size.used..size.used + size.expected];
      assert data[remaining..] == (stored + data)[size.used + size.expected..];
    }
  }

  lemma {:induction false} SafeCallsCut(stored: Bytes, chunks: seq<Bytes>)
    requires Cut(stored) == Cutting([], stored)
    requires Safe(stored + Concat(chunks))
    ensures DecodeCalls(stored, chunks) == Some(Cut(stored + Concat(chunks)))
    decreases chunks
  {
    if chunks == [] {
      assert stored + Concat(chunks) == stored;
    } else {
      var x, y := stored + chunks[0], Concat(chunks[1..]);
      assert stored + Concat(chunks) == x + y;
      SafePrefix(x, y);
      DecodeCallCuts(stored, chunks[0]);
      CutAppend(x, y);
      SafeRest(x, y);
      RestIsUncut(x);
      SafeCallsCut(Cut(x).rest, chunks[1..]);
    }
  }

  /** A stream that is not safe has a chunking on which the store path subtracts below zero. */
  lemma {:induction false} UnsafeChunking(stream: Bytes) returns (chunks: seq<Bytes>)
    requires !Safe(stream)
    ensures Concat(chunks) == stream
    ensures DecodeCalls([], chunks) == None
    decreases |stream|
  {
    match DecodeSize(stream)
    case None =>
      chunks := [stream, []];
      TwoCalls(stream, []);
    case Some(SizeInfo(n, u)) =>
      if |stream| >= u + n && !Safe(stream[u + n..]) {
        var tail := UnsafeChunking(stream[u + n..]);
        chunks := [stream[..u + n]] + tail;
        WholeMessageFirst(stream, n, u, tail);
      } else {
        chunks := [stream[..1], stream[1..]];
        LookAheadUnderflows(stream, n, u);
        TwoCalls(stream[..1], stream[1..]);
      }
  }

  lemma WholeMessageFirst(stream: Bytes, n: nat, u: nat, tail: seq<Bytes>)
    requires DecodeSize(stream) == Some(SizeInfo(n, u)) && |stream| >= u + n
    requires Concat(tail) == stream[u + n..] && DecodeCalls([], tail) == None
    ensures Concat([stream[..u + n]] + tail) == stream
    ensures DecodeCalls([], [stream[..u + n]] + tail) == None
  {
    hide DecodeSize;
    var head, left := stream[..u + n], stream[u + n..];
    assert stream == head + left;
    DecodeStable(head, left);
    assert head[u + n..] == [];
    assert Cut(head).rest == [];
    assert ([head] + tail)[1..] == tail;
  }

  lemma TwoCalls(x: Bytes, y: Bytes)
    requires Cut(x) == Cutting([], x) && DecodeCall(x, y) == None
    ensures DecodeCalls([], [x, y]) == None
    ensures Concat([x, y]) == x + y
  {
    assert [x, y][1..] == [y] && [y][1..] == [];
    assert DecodeCalls(x, [y]) == None;
    ConcatOne(y);
  }

  lemma LookAheadUnderflows(stream: Bytes, n: nat, u: nat)
    requires DecodeSize(stream) == Some(SizeInfo(n, u))
    requires u > 1 && u + n < MAX_ENCODED_SIZE && u + n < |stream|
    ensures Cut(stream[..1]) == Cutting([], stream[..1])
    ensures DecodeCall(stream[..1], stream[1..]) == None
    ensures stream == stream[..1] + stream[1..]
  {
    var first, others := stream[..1], stream[1..];
    assert stream == first + others;
    DecodeStable(first, others);
    var ahead := Min(MAX_ENCODED_SIZE - 1, |others|);
    var longer, left := first + others[..ahead], others[ahead..];
    assert stream == longer + left;
    DecodeStable(longer, left);
  }

  /**
   Exactly the safe streams are decoded without underflow, and to the same messages, under every
   chunking (empty chunks included).
   */
  lemma ChunkingIndependent(stream: Bytes)
    ensures Safe(stream)
       <==> forall chunks: seq<Bytes> | Concat(chunks) == stream :: DecodeCalls([], chunks) == Some(Cut(stream))
  {
    if Safe(stream) {
      forall chunks: seq<Bytes> | Concat(chunks) == stream ensures DecodeCalls([], chunks) == Some(Cut(stream)) {
        assert [] + Concat(chunks) == stream;
        SafeCallsCut([], chunks);
      }
    } else {
      var chunks := UnsafeChunking(stream);
    }
  }

  // ---------------------------------------------------------------- streams made by the encoder

  function Encoded(message: Bytes): Bytes {
    EncodeSize(message) + message
  }

  function EncodedStream(messages: seq<Bytes>): Bytes {
    if messages == [] then [] else Encoded(messages[0]) + EncodedStream(messages[1..])
  }

  predicate Sized(messages: seq<Bytes>) {
    forall i :: 0 <= i < |messages| ==> |messages[i]| < USIZE_LIMIT
  }

  /** `rest` is what the wire still owes: a strict prefix of the next message, or nothing. */
  ghost predicate Undelivered(messages: seq<Bytes>, k: nat, rest: Bytes)
    requires k <= |messages|
  {
    if k == |messages| then rest == []
    else |rest| < |Encoded(messages[k])| && rest <= Encoded(messages[k])
  }

  lemma {:induction false} EncodedIsSafe(messages: seq<Bytes>)
    requires Sized(messages)
    ensures Safe(EncodedStream(messages))
  {
    hide DecodeSize;
    if messages != [] {
      var m, tail := messages[0], EncodedStream(messages[1..]);
      assert Encoded(m) + tail == EncodeSize(m) + (m + tail);
      SizeRoundTrip(m, m + tail);
      assert EncodedStream(messages)[|EncodeSize(m)| + |m|..] == tail;
      EncodedIsSafe(messages[1..]);
    }
  }

  /** A strict prefix of one encoded message is not cut. */
  lemma PartOfMessageWaits(m: Bytes, prefix: Bytes)
    requires |m| < USIZE_LIMIT && prefix <= Encoded(m) && |prefix| < |Encoded(m)|
    ensures Cut(prefix) == Cutting([], prefix)
  {
    hide DecodeSize, EncodeSize, Cut;
    var e := EncodeSize(m);
    CutUnfolds(prefix);
    if |prefix| < |e| {
      assert prefix == e[..|prefix|];
      SizeRoundTrip(m, []);
    } else {
      assert prefix == e + m[..|prefix| - |e|];
      SizeRoundTrip(m, m[..|prefix| - |e|]);
    }
  }

  /** A whole one is cut off the front. */
  lemma WholeMessageIsCut(m: Bytes, more: Bytes)
    requires |m| < USIZE_LIMIT
    ensures Cut(Encoded(m) + more) == Cutting([m] + Cut(more).messages, Cut(more).rest)
  {
    hide DecodeSize, EncodeSize, Cut;
    var e, all := EncodeSize(m), Encoded(m) + more;
    CutUnfolds(all);
    assert all == e + (m + more);
    SizeRoundTrip(m, m + more);
    assert all[|e|..|e| + |m|] == m && all[|e| + |m|..] == more;
  }

  lemma {:induction false} CutOfEncodedPrefix(messages: seq<Bytes>, prefix: Bytes) returns (k: nat)
    requires Sized(messages)
    requires prefix <= EncodedStream(messages)
    ensures k <= |messages| && Cut(prefix).messages == messages[..k]
    ensures Undelivered(messages, k, Cut(prefix).rest)
    ensures prefix == EncodedStream(messages) ==> k == |messages|
    decreases messages
  {
    hide Cut, Encoded;
    k := 0;
    if messages == [] {
      NothingToCut();
    } else {
      var w, tail := Encoded(messages[0]), EncodedStream(messages[1..]);
      if |prefix| < |w| {
        assert prefix == w[..|prefix|];
        PartOfMessageWaits(messages[0], prefix);
      } else {
        var more := prefix[|w|..];
        assert prefix == w + more && more == tail[..|more|];
        WholeMessageIsCut(messages[0], more);
        var j := CutOfEncodedPrefix(messages[1..], more);
        k := j + 1;
        assert messages[..k] == [messages[0]] + messages[1..][..j];
      }
    }
  }

  /**
   However the wire form of `messages` is cut, the calls made so far have delivered an initial run of
   `messages`, hold exactly the undelivered strict prefix of the next one, and have delivered all of them
   once the whole wire form has arrived.
   */
  lemma DecodesEveryChunking(messages: seq<Bytes>, chunks: seq<Bytes>) returns (k: nat)
    requires Sized(messages)
    requires Concat(chunks) <= EncodedStream(messages)
    ensures k <= |messages|
    ensures DecodeCalls([], chunks).Some? && DecodeCalls([], chunks).value.messages == messages[..k]
    ensures Undelivered(messages, k, DecodeCalls([], chunks).value.rest)
    ensures Concat(chunks) == EncodedStream(messages)
            ==> DecodeCalls([], chunks) == Some(Cutting(messages, []))
  {
    hide Cut, Safe, DecodeCalls, EncodedStream, Encoded;
    NothingToCut();
    var prefix, whole := Concat(chunks), EncodedStream(messages);
    EncodedIsSafe(messages);
    assert whole == prefix + whole[|prefix|..];
    SafePrefix(prefix, whole[|prefix|..]);
    assert [] + prefix == prefix;
    SafeCallsCut([], chunks);
    k := CutOfEncodedPrefix(messages, prefix);
    assert messages[..|messages|] == messages;
  }

  // ---------------------------------------------------------------- the decoder object

  class Decoder {
    var stored: Bytes

    constructor ()
      ensures stored == []
    {
      stored := [];
    }

    /** The copy-free path: deliver straight from `data`, keep what is left over. */
    method TryDecode(data: Bytes) returns (delivered: seq<Bytes>)
      requires stored == []
      modifies this
      ensures Cutting(delivered, stored) == Cut(data)
    {
      hide DecodeSize, Cut;
      var next := data;
      delivered := [];
      while true
        invariant stored == []
        invariant Cut(data) == Cutting(delivered + Cut(next).messages, Cut(next).rest)
        decreases |next|
      {
        CutUnfolds(next);
        var size := DecodeSize(next);
        if size.Some? {
          var SizeInfo(expected, used) := size.value;
          var remaining := next[used..];
          if |remaining| >= expected {
            assert next[used..used + expected] == remaining[..expected];
            assert next[used + expected..] == remaining[expected..];
            delivered := delivered + [remaining[..expected]];
            if remaining[expected..] != [] {
              next := remaining[expected..];
              continue;
            } else {
              NothingToCut();
              break;
            }
          }
        }
        stored := stored + next;
        break;
      }
    }

    /** `overflow` is the subtraction below zero of which `StoreAndDecode` says when it happens. */
    method StoreAndDecodedData(data: Bytes) returns (overflow: bool, completed: Option<(Bytes, Bytes)>)
      modifies this
      ensures overflow <==> StoreAndDecode(old(stored), data) == None
      ensures !overflow && completed.None? ==> StoreAndDecode(old(stored), data) == Some(Waiting(stored))
      ensures !overflow && completed.Some? ==>
                StoreAndDecode(old(stored), data) == Some(Completed(completed.value.0, completed.value.1))
    {
      overflow, completed := false, None;
      var size := DecodeSize(stored);
      var data := data;
      if size == None {
        if |stored| > MAX_ENCODED_SIZE {
          return true, None;
        }
        var ahead := Min(MAX_ENCODED_SIZE - |stored|, |data|);
        stored := stored + data[..ahead];
        size := DecodeSize(stored);
        if size == None {
          return;
        }
        data := data[ahead..];
      }
      var SizeInfo(expected, used) := size.value;
      if |stored| - used > expected {
        return true, None;
      }
      var remaining := expected - (|stored| - used);
      if |data| < remaining {
        stored := stored + data;
      } else {
        stored := stored + data[..remaining];
        completed := Some((stored[used..], data[remaining..]));
      }
    }

    method Decode(data: Bytes) returns (overflow: bool, delivered: seq<Bytes>)
      modifies this
      ensures overflow <==> DecodeCall(old(stored), data) == None
      ensures !overflow ==> DecodeCall(old(stored), data) == Some(Cutting(delivered, stored))
    {
      overflow, delivered := false, [];
      if stored == [] {
        delivered := TryDecode(data);
      } else {
        var completed;
        overflow, completed := StoreAndDecodedData(data);
        if !overflow && completed.Some? {
          stored := [];
          var more := TryDecode(completed.value.1);
          delivered := [completed.value.0] + more;
        }
      }
    }
  }
}
