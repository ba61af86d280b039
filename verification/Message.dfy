/**
 Well-formed UTF-8 (section 4 of RFC 3629) and the incremental decoder that
 `src/adapters/ws/protocol/message.rs` takes from the `utf-8` crate, by its contract.
 */
module Utf8Text {
  import opened Base

  predicate IsTail(b: Byte) {
    0x80 <= b <= 0xBF
  }

  /** Length of the sequence a first byte opens; zero when it opens none. */
  function SequenceLen(first: Byte): nat {
    if first <= 0x7F then 1
    else if 0xC2 <= first <= 0xDF then 2
    else if 0xE0 <= first <= 0xEF then 3
    else if 0xF0 <= first <= 0xF4 then 4
    else 0
  }

  predicate SecondFits(first: Byte, second: Byte) {
    if first == 0xE0 then 0xA0 <= second <= 0xBF
    else if first == 0xED then 0x80 <= second <= 0x9F
    else if first == 0xF0 then 0x90 <= second <= 0xBF
    else if first == 0xF4 then 0x80 <= second <= 0x8F
    else IsTail(second)
  }

  datatype Lead = Char(len: nat) | Partial | Broken

  /** What a non-empty string starts with. */
  function LeadOf(b: Bytes): (r: Lead)
    requires b != []
    ensures r.Char? ==> 1 <= r.len <= |b| && r.len <= 4
    ensures r.Partial? ==> |b| < 4
  {
    var n := SequenceLen(b[0]);
    if n == 0
       || (n >= 2 && |b| >= 2 && !SecondFits(b[0], b[1]))
       || (n >= 3 && |b| >= 3 && !IsTail(b[2]))
       || (n >= 4 && |b| >= 4 && !IsTail(b[3])) then Broken
    else if |b| < n then Partial
    else Char(n)
  }

  predicate WellFormed(b: Bytes)
    decreases |b|
  {
    b == [] || (LeadOf(b).Char? && WellFormed(b[LeadOf(b).len..]))
  }

  /** `valid` is the length of the longest well-formed prefix that ends at a character boundary. */
  datatype Decoded = Whole | Cut(valid: nat) | Invalid(valid: nat)

  function Behind(n: nat, d: Decoded): Decoded {
    match d
    case Whole => Whole
    case Cut(v) => Cut(n + v)
    case Invalid(v) => Invalid(n + v)
  }

  function Decode(b: Bytes): (d: Decoded)
    ensures !d.Whole? ==> d.valid <= |b|
    ensures d.Cut? ==> d.valid < |b| && |b| - d.valid < 4
    decreases |b|
  {
    if b == [] then Whole
    else
      match LeadOf(b)
      case Char(n) => Behind(n, Decode(b[n..]))
      case Partial => Cut(0)
      case Broken => Invalid(0)
  }

  lemma {:induction false} WholeIsWellFormed(b: Bytes)
    ensures Decode(b).Whole? <==> WellFormed(b)
    decreases |b|
  {
    hide LeadOf;
    if b != [] && LeadOf(b).Char? {
      WholeIsWellFormed(b[LeadOf(b).len..]);
    }
  }

  lemma LeadStable(x: Bytes, y: Bytes)
    requires x != [] && !LeadOf(x).Partial?
    ensures LeadOf(x + y) == LeadOf(x)
  {
  }

  /** One character off the front, or the end. */
  lemma DecodeUnfolds(b: Bytes)
    requires b != []
    ensures Decode(b) == match LeadOf(b)
              case Char(n) => Behind(n, Decode(b[n..]))
              case Partial => Cut(0)
              case Broken => Invalid(0)
  {
    hide LeadOf;
  }

  lemma BehindTwice(m: nat, n: nat, d: Decoded)
    ensures Behind(m, Behind(n, d)) == Behind(m + n, d)
  {
  }

  /** Decoding can be resumed behind the valid prefix; an invalid sequence stays invalid. */
  ghost predicate Resumes(x: Bytes, y: Bytes) {
    match Decode(x)
    case Whole => Decode(x + y) == Behind(|x|, Decode(y))
    case Cut(v) => Decode(x + y) == Behind(v, Decode(x[v..] + y))
    case Invalid(v) => Decode(x + y) == Invalid(v)
  }

  lemma ResumesBehind(x: Bytes, y: Bytes, n: nat)
    requires x != [] && LeadOf(x) == Char(n) && Resumes(x[n..], y)
    ensures Resumes(x, y)
  {
    hide LeadOf, Decode;
    var rest := x[n..];
    LeadStable(x, y);
    assert (x + y)[n..] == rest + y;
    DecodeUnfolds(x);
    DecodeUnfolds(x + y);
    match Decode(rest)
    case Whole => BehindTwice(n, |rest|, Decode(y));
    case Cut(v) =>
      assert x[n + v..] == rest[v..];
      BehindTwice(n, v, Decode(rest[v..] + y));
    case Invalid(v) =>
  }

  lemma {:induction false} DecodeAppend(x: Bytes, y: Bytes)
    ensures Resumes(x, y)
    decreases |x|
  {
    if x == [] {
      assert x + y == y;
      assert Behind(0, Decode(y)) == Decode(y);
    } else if LeadOf(x).Char? {
      hide Resumes;
      var n := LeadOf(x).len;
      DecodeAppend(x[n..], y);
      ResumesBehind(x, y, n);
    } else if LeadOf(x).Partial? {
      assert x[0..] == x;
      assert Behind(0, Decode(x + y)) == Decode(x + y);
      DecodeUnfolds(x);
    } else {
      LeadStable(x, y);
      DecodeUnfolds(x);
      DecodeUnfolds(x + y);
    }
  }

  /** The valid prefix decodes whole, and what is cut off is one unfinished character. */
  ghost predicate InParts(x: Bytes) {
    var d := Decode(x);
    (!d.Whole? ==> Decode(x[..d.valid]).Whole?) && (d.Cut? ==> LeadOf(x[d.valid..]).Partial?)
  }

  lemma InPartsBehind(x: Bytes, n: nat)
    requires x != [] && LeadOf(x) == Char(n) && InParts(x[n..])
    ensures InParts(x)
  {
    hide LeadOf, Decode;
    DecodeUnfolds(x);
    var rest := x[n..];
    var d := Decode(rest);
    if !d.Whole? {
      var front := x[..n + d.valid];
      assert front[n..] == rest[..d.valid] && x[n + d.valid..] == rest[d.valid..];
      CharAlone(x, n, n + d.valid);
      DecodeUnfolds(front);
    }
  }

  lemma {:induction false} DecodeParts(x: Bytes)
    ensures !Decode(x).Whole? ==> Decode(x[..Decode(x).valid]).Whole?
    ensures Decode(x).Cut? ==> LeadOf(x[Decode(x).valid..]).Partial?
    decreases |x|
  {
    if x != [] {
      var lead := LeadOf(x);
      DecodeUnfolds(x);
      if lead.Char? {
        hide LeadOf, Decode;
        DecodeParts(x[lead.len..]);
        InPartsBehind(x, lead.len);
      } else {
        assert x[0..] == x && x[..0] == [];
      }
    }
  }

  lemma CharAlone(x: Bytes, n: nat, v: nat)
    requires x != [] && LeadOf(x) == Char(n) && n <= v <= |x|
    ensures LeadOf(x[..v]) == Char(n)
  {
  }

  // ---------------------------------------------------------------- completing a cut character

  datatype Completion = Still(buffer: Bytes) | Completed(text: Bytes, rest: Bytes) | Undecodable

  /** The crate copies what fits into its four-byte buffer and decodes that. */
  function TryComplete(buffer: Bytes, input: Bytes): Completion
    requires buffer != [] && LeadOf(buffer).Partial?
  {
    var copied := Min(4 - |buffer|, |input|);
    var spliced := buffer + input[..copied];
    var d := Decode(spliced);
    if d.Whole? then Completed(spliced, input[copied..])
    else if d.valid > 0 then
      SplicedCoversBuffer(buffer, input[..copied]);
      Completed(spliced[..d.valid], input[d.valid - |buffer|..])
    else if d.Cut? then Still(spliced)
    else Undecodable
  }

  lemma SplicedCoversBuffer(buffer: Bytes, more: Bytes)
    requires buffer != [] && LeadOf(buffer).Partial?
    requires !Decode(buffer + more).Whole? && Decode(buffer + more).valid > 0
    ensures Decode(buffer + more).valid >= |buffer|
  {
    var b := buffer + more;
    assert LeadOf(b).Char? && LeadOf(b).len > |buffer|;
  }

  lemma Spliced(buffer: Bytes, input: Bytes, copied: nat, v: nat)
    requires copied <= |input| && |buffer| <= v <= |buffer| + copied
    ensures (buffer + input[..copied])[..v] + input[v - |buffer|..] == buffer + input
  {
    assert (buffer + input[..copied])[..v] == buffer + input[..v - |buffer|];
  }

  /** Everything was copied, and it is still one unfinished character. */
  lemma StillUnfinished(buffer: Bytes, input: Bytes, copied: nat)
    requires |buffer| < 4 && copied == Min(4 - |buffer|, |input|)
    requires Decode(buffer + input[..copied]) == Cut(0)
    ensures buffer + input[..copied] == buffer + input
  {
    hide LeadOf;
    var spliced := buffer + input[..copied];
    assert |spliced| - 0 < 4;
    assert input[..copied] == input;
  }

  lemma WholeFront(buffer: Bytes, input: Bytes, copied: nat)
    requires copied <= |input|
    ensures buffer + input[..copied] + input[copied..] == buffer + input
  {
    var spliced := buffer + input[..copied];
    Spliced(buffer, input, copied, |spliced|);
    assert spliced[..|spliced|] == spliced;
  }

  lemma BrokenFront(buffer: Bytes, input: Bytes, copied: nat)
    requires copied <= |input| && Decode(buffer + input[..copied]).Invalid?
    ensures Decode(buffer + input).Invalid?
  {
    hide Decode;
    WholeFront(buffer, input, copied);
    DecodeAppend(buffer + input[..copied], input[copied..]);
  }

  /** The four ways it can go. */
  lemma TryCompleteUnfolds(buffer: Bytes, input: Bytes, copied: nat, spliced: Bytes, d: Decoded)
    requires buffer != [] && LeadOf(buffer).Partial?
    requires copied == Min(4 - |buffer|, |input|) && spliced == buffer + input[..copied] && d == Decode(spliced)
    ensures d.Whole? ==> TryComplete(buffer, input) == Completed(spliced, input[copied..])
    ensures !d.Whole? && d.valid > 0 ==>
              |buffer| <= d.valid <= |spliced|
              && TryComplete(buffer, input) == Completed(spliced[..d.valid], input[d.valid - |buffer|..])
    ensures d == Cut(0) ==> TryComplete(buffer, input) == Still(spliced)
    ensures d == Invalid(0) ==> TryComplete(buffer, input) == Undecodable
  {
    hide LeadOf, Decode;
    if !d.Whole? && d.valid > 0 {
      SplicedCoversBuffer(buffer, input[..copied]);
    }
  }

  /** Completing consumes a well-formed text off the front, or keeps everything, or the string is hopeless. */
  lemma TryCompleteDecodes(buffer: Bytes, input: Bytes)
    requires buffer != [] && LeadOf(buffer).Partial?
    ensures match TryComplete(buffer, input)
            case Still(b) => b == buffer + input && Decode(b) == Cut(0)
            case Completed(text, rest) => text + rest == buffer + input && Decode(text).Whole?
            case Undecodable => Decode(buffer + input).Invalid?
  {
    hide LeadOf, Decode, TryComplete;
    var copied := Min(4 - |buffer|, |input|);
    var spliced := buffer + input[..copied];
    var d := Decode(spliced);
    TryCompleteUnfolds(buffer, input, copied, spliced, d);
    if d.Whole? {
      WholeFront(buffer, input, copied);
    } else if d.valid > 0 {
      Spliced(buffer, input, copied, d.valid);
      DecodeParts(spliced);
    } else if d.Cut? {
      StillUnfinished(buffer, input, copied);
    } else {
      BrokenFront(buffer, input, copied);
    }
  }
}

/**
 Messages and their reassembly from fragments (`src/adapters/ws/protocol/message.rs`).
 */
module Messages {
  import opened Base
  import opened Frames
  import opened Streams
  import opened Utf8Text

  // ---------------------------------------------------------------- text fragments

  datatype CollectorState = Collector(data: Bytes, incomplete: Option<Bytes>) {
    predicate Valid() {
      incomplete.Some? ==> incomplete.value != [] && LeadOf(incomplete.value).Partial?
    }

    function Len(): nat {
      |data| + if incomplete.Some? then |incomplete.value| else 0
    }
  }

  type Collector = c: CollectorState | c.Valid() witness Collector([], None)

  const EMPTY_COLLECTOR: Collector := Collector([], None)

  datatype Extended = Extended(collector: Collector, ok: bool)

  function AppendText(data: Bytes, input: Bytes): Extended {
    if input == [] then Extended(Collector(data, None), true)
    else
      match Decode(input)
      case Whole => Extended(Collector(data + input, None), true)
      case Cut(v) =>
        DecodeParts(input);
        Extended(Collector(data + input[..v], Some(input[v..])), true)
      case Invalid(v) => Extended(Collector(data + input[..v], None), false)
  }

  function ExtendText(c: Collector, tail: Bytes): Extended {
    if c.incomplete.None? then AppendText(c.data, tail)
    else
      match TryComplete(c.incomplete.value, tail)
      case Still(buffer) =>
        StillIsPartial(c.incomplete.value, tail);
        Extended(c.(incomplete := Some(buffer)), true)
      case Completed(text, rest) => AppendText(c.data + text, rest)
      case Undecodable => Extended(c.(incomplete := None), false)
  }

  lemma StillIsPartial(buffer: Bytes, input: Bytes)
    requires buffer != [] && LeadOf(buffer).Partial?
    ensures var t := TryComplete(buffer, input); t.Still? ==> t.buffer != [] && LeadOf(t.buffer).Partial?
  {
    hide LeadOf, Decode, TryComplete;
    TryCompleteDecodes(buffer, input);
    var t := TryComplete(buffer, input);
    if t.Still? {
      DecodeParts(t.buffer);
      assert t.buffer[0..] == t.buffer;
    }
  }

  /** The collector that has taken exactly `total`; none when no continuation could be well formed. */
  function CollectorOf(total: Bytes): Option<Collector> {
    match Decode(total)
    case Whole => Some(Collector(total, None))
    case Cut(v) =>
      DecodeParts(total);
      Some(Collector(total[..v], Some(total[v..])))
    case Invalid(_) => None
  }

  /** Appending behind text that decodes whole. */
  lemma AppendTextCollects(data: Bytes, input: Bytes)
    requires Decode(data).Whole?
    ensures var e := AppendText(data, input);
            CollectorOf(data + input) == if e.ok then Some(e.collector) else None
  {
    hide LeadOf, Decode;
    DecodeAppend(data, input);
    if input == [] {
      assert data + input == data;
    } else if Decode(input).Cut? {
      var v := Decode(input).valid;
      assert (data + input)[..|data| + v] == data + input[..v];
      assert (data + input)[|data| + v..] == input[v..];
    }
  }

  /** One fragment more: accepted exactly when the text so far can still become well formed. */
  lemma ExtendTextCollects(total: Bytes, c: Collector, tail: Bytes)
    requires CollectorOf(total) == Some(c)
    ensures c.Len() == |total|
    ensures var e := ExtendText(c, tail);
            CollectorOf(total + tail) == if e.ok then Some(e.collector) else None
  {
    hide LeadOf, Decode, AppendText;
    DecodeParts(total);
    if c.incomplete.None? {
      AppendTextCollects(total, tail);
    } else {
      assert total == c.data + c.incomplete.value;
      CompleteTextCollects(c, tail);
      assert total + tail == c.data + (c.incomplete.value + tail);
    }
  }

  lemma CompleteTextCollects(c: Collector, tail: Bytes)
    requires c.incomplete.Some? && Decode(c.data).Whole?
    ensures var e := ExtendText(c, tail);
            CollectorOf(c.data + (c.incomplete.value + tail)) == if e.ok then Some(e.collector) else None
  {
    hide LeadOf, Decode, AppendText, TryComplete;
    var all := c.incomplete.value + tail;
    TryCompleteDecodes(c.incomplete.value, tail);
    DecodeAppend(c.data, all);
    match TryComplete(c.incomplete.value, tail)
    case Undecodable =>
    case Still(b) =>
      assert (c.data + all)[..|c.data|] == c.data;
      assert (c.data + all)[|c.data|..] == b;
    case Completed(text, rest) =>
      DecodeAppend(c.data, text);
      AppendTextCollects(c.data + text, rest);
      assert c.data + all == c.data + text + rest;
  }

  function CollectFrom(c: Collector, fragments: seq<Bytes>): Option<Collector>
    decreases fragments
  {
    if fragments == [] then Some(c)
    else
      var e := ExtendText(c, fragments[0]);
      if e.ok then CollectFrom(e.collector, fragments[1..]) else None
  }

  lemma {:induction false} CollectFromTotal(total: Bytes, c: Collector, fragments: seq<Bytes>)
    requires CollectorOf(total) == Some(c)
    ensures CollectFrom(c, fragments) == CollectorOf(total + Concat(fragments))
    decreases fragments
  {
    hide ExtendText, CollectorOf;
    if fragments == [] {
      assert total + Concat(fragments) == total;
    } else {
      var e := ExtendText(c, fragments[0]);
      ExtendTextCollects(total, c, fragments[0]);
      assert total + Concat(fragments) == total + fragments[0] + Concat(fragments[1..]);
      if e.ok {
        CollectFromTotal(total + fragments[0], e.collector, fragments[1..]);
      } else {
        HopelessStays(total + fragments[0], Concat(fragments[1..]));
      }
    }
  }

  lemma HopelessStays(x: Bytes, y: Bytes)
    requires CollectorOf(x) == None
    ensures CollectorOf(x + y) == None
  {
    DecodeAppend(x, y);
  }

  /**
   Every cut of a text into fragments: all are accepted and the collector completes exactly when the
   whole is well-formed UTF-8, and then the text is the whole.
   */
  lemma FragmentsCollectIff(fragments: seq<Bytes>)
    ensures var r := CollectFrom(EMPTY_COLLECTOR, fragments);
            && (r.Some? && r.value.incomplete.None? <==> WellFormed(Concat(fragments)))
            && (r.Some? && r.value.incomplete.None? ==> r.value.data == Concat(fragments))
  {
    assert CollectorOf([]) == Some(EMPTY_COLLECTOR);
    CollectFromTotal([], EMPTY_COLLECTOR, fragments);
    assert [] + Concat(fragments) == Concat(fragments);
    WholeIsWellFormed(Concat(fragments));
  }

  // ---------------------------------------------------------------- messages

  datatype Message =
    | Text(data: Bytes) | Binary(data: Bytes) | Ping(data: Bytes) | Pong(data: Bytes)
    | Close(reason: Option<CloseReason>) | Raw(frame: Frame)

  datatype Incomplete = IncompleteText(collector: Collector) | IncompleteBinary(data: Bytes) {
    function Len(): nat {
      match this case IncompleteText(c) => c.Len() case IncompleteBinary(b) => |b|
    }
  }

  datatype Growth = Growth(message: Incomplete, result: Result<()>)

  function ExtendMessage(m: Incomplete, tail: Bytes, limit: nat): Growth {
    if m.Len() > limit || |tail| > limit - m.Len() then Growth(m, Err(MessageTooLong(m.Len() + |tail|, limit)))
    else
      match m
      case IncompleteBinary(data) => Growth(IncompleteBinary(data + tail), Ok(()))
      case IncompleteText(c) =>
        var e := ExtendText(c, tail);
        Growth(IncompleteText(e.collector), if e.ok then Ok(()) else Err(Utf8))
  }

  function CompleteMessage(m: Incomplete): Result<Message> {
    match m
    case IncompleteBinary(data) => Ok(Binary(data))
    case IncompleteText(c) => if c.incomplete.Some? then Err(Utf8) else Ok(Text(c.data))
  }

  /** `m` has collected exactly `total`. */
  predicate Collected(m: Incomplete, text: bool, total: Bytes) {
    if text then m.IncompleteText? && CollectorOf(total) == Some(m.collector)
    else m == IncompleteBinary(total)
  }

  /**
   Growth succeeds exactly within the limit and while the text can still become well formed, and then
   appends; completion succeeds exactly for well-formed text and any binary, and yields the whole.
   */
  lemma MessageCollects(m: Incomplete, text: bool, total: Bytes, tail: Bytes, limit: nat)
    requires Collected(m, text, total)
    ensures var g := ExtendMessage(m, tail, limit);
            && (g.result.Ok? <==> |total + tail| <= limit && (text ==> CollectorOf(total + tail).Some?))
            && (g.result.Ok? ==> Collected(g.message, text, total + tail))
    ensures var done := CompleteMessage(m);
            && (done.Ok? <==> (text ==> WellFormed(total)))
            && (done.Ok? ==> done.value == if text then Text(total) else Binary(total))
  {
    hide ExtendText, LeadOf;
    if text {
      ExtendTextCollects(total, m.collector, tail);
      WholeIsWellFormed(total);
    }
  }
}

/** The text collector as the object that `src/adapters/ws/protocol/message.rs` updates in place. */
module CollectorObjects {
  import opened Base
  import opened Utf8Text
  import opened Messages

  class StringCollector {
    var data: Bytes
    var incomplete: Option<Bytes>

    ghost predicate Valid()
      reads this
    {
      Collector(data, incomplete).Valid()
    }

    ghost function View(): Collector
      requires Valid()
      reads this
    {
      Collector(data, incomplete)
    }

    constructor ()
      ensures Valid() && View() == EMPTY_COLLECTOR
    {
      data, incomplete := [], None;
    }

    method Extend(tail: Bytes) returns (ok: bool)
      requires Valid()
      modifies this
      ensures Valid() && Extended(View(), ok) == ExtendText(old(View()), tail)
    {
      hide LeadOf, Decode, TryComplete;
      var input := tail;
      if incomplete.Some? {
        var pending := incomplete.value;
        StillIsPartial(pending, tail);
        incomplete := None;
        match TryComplete(pending, input) {
          case Completed(text, rest) =>
            input := rest;
            data := data + text;
          case Undecodable =>
            return false;
          case Still(buffer) =>
            input := [];
            incomplete := Some(buffer);
        }
      }
      if input != [] {
        DecodeParts(input);
        match Decode(input) {
          case Whole =>
            data := data + input;
          case Cut(v) =>
            data := data + input[..v];
            incomplete := Some(input[v..]);
          case Invalid(v) =>
            data := data + input[..v];
            return false;
        }
      }
      return true;
    }

    /** Whatever has been collected: it is yielded, whole, exactly when it is well-formed UTF-8. */
    method IntoString() returns (text: Option<Bytes>)
      requires Valid()
      ensures forall total | CollectorOf(total) == Some(View()) ::
                if WellFormed(total) then text == Some(total) else text == None
    {
      hide Decode;
      forall total | CollectorOf(total) == Some(View())
        ensures if WellFormed(total) then incomplete.None? && data == total else incomplete.Some?
      {
        WholeIsWellFormed(total);
      }
      text := if incomplete.Some? then None else Some(data);
    }
  }
}
