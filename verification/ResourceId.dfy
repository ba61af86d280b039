/**
 Resource identifiers (`src/network/resource_id.rs`) and their poll tokens (`src/network/poll.rs`).
 A raw identifier is a 64-bit number: 48 bits of base value, 7 of adapter, 1 of type; the top byte is
 reserved.  The fields are disjoint, so the bitwise operations are written as arithmetic.
 */
module ResourceIds {

  type Id = nat

  const BASE_LIMIT: nat := 0x1_0000_0000_0000
  const ADAPTER_LIMIT: nat := 128
  const TYPE_BIT: nat := BASE_LIMIT * ADAPTER_LIMIT
  const RESERVED: nat := 2 * TYPE_BIT

  const TCP: nat := 0
  const WS: nat := 3

  predicate Mounted(adapter: nat) {
    adapter == TCP || adapter == WS
  }

  function Pack(adapter: nat, local: bool, base: nat): Id
    requires adapter < ADAPTER_LIMIT && base < BASE_LIMIT
  {
    (if local then TYPE_BIT else 0) + adapter * BASE_LIMIT + base
  }

  predicate IsLocal(id: Id) {
    id / TYPE_BIT % 2 == 1
  }

  function Adapter(id: Id): nat {
    id / BASE_LIMIT % ADAPTER_LIMIT
  }

  function BaseValue(id: Id): nat {
    id % BASE_LIMIT
  }

  /** Every field decodes back. */
  lemma FieldsDecode(adapter: nat, local: bool, base: nat)
    requires adapter < ADAPTER_LIMIT && base < BASE_LIMIT
    ensures var id := Pack(adapter, local, base);
            && Adapter(id) == adapter && (IsLocal(id) <==> local) && BaseValue(id) == base && id < RESERVED
  {
  }

  /** And an identifier with a clear top byte is made of its fields. */
  lemma FieldsMake(id: Id)
    requires id < RESERVED
    ensures Adapter(id) < ADAPTER_LIMIT && BaseValue(id) < BASE_LIMIT
    ensures id == Pack(Adapter(id), IsLocal(id), BaseValue(id))
  {
  }

  /** Different base values or types make different identifiers, whatever the adapters. */
  lemma PackInjective(a: nat, la: bool, ba: nat, b: nat, lb: bool, bb: nat)
    requires a < ADAPTER_LIMIT && ba < BASE_LIMIT && b < ADAPTER_LIMIT && bb < BASE_LIMIT
    ensures Pack(a, la, ba) == Pack(b, lb, bb) <==> a == b && la == lb && ba == bb
  {
    FieldsDecode(a, la, ba);
    FieldsDecode(b, lb, bb);
  }

  // ---------------------------------------------------------------- base values out of range

  function Or(a: nat, b: nat): nat
    decreases a
  {
    if a == 0 then b else 2 * Or(a / 2, b / 2) + if a % 2 == 1 || b % 2 == 1 then 1 else 0
  }

  function Pow2(k: nat): (p: nat)
    ensures p > 0
  {
    if k == 0 then 1 else 2 * Pow2(k - 1)
  }

  lemma OrNothing(a: nat)
    ensures Or(a, 0) == a
  {
  }

  lemma Halves(x: nat, y: nat, m: nat)
    ensures x * (2 * m) == 2 * (x * m) && x * (2 * m) % 2 == 0 && x * (2 * m) / 2 == x * m
    ensures (x * (2 * m) + y) % 2 == y % 2 && (x * (2 * m) + y) / 2 == x * m + y / 2
  {
    assert x * (2 * m) == 2 * (x * m);
  }

  /** Above and below bit `k`, apart. */
  lemma {:induction false} OrSplit(k: nat, a: nat, b: nat, low: nat)
    requires low < Pow2(k)
    ensures Or(a * Pow2(k), b * Pow2(k) + low) == Or(a, b) * Pow2(k) + low
    decreases k
  {
    hide Or;
    if k > 0 {
      var m := Pow2(k - 1);
      OrSplit(k - 1, a, b, low / 2);
      OrDoubles(a, b, low, m);
    }
  }

  lemma OrDoubles(a: nat, b: nat, low: nat, m: nat)
    requires Or(a * m, b * m + low / 2) == Or(a, b) * m + low / 2
    ensures Or(a * (2 * m), b * (2 * m) + low) == Or(a, b) * (2 * m) + low
  {
    hide Or;
    Halves(a, 0, m);
    Halves(b, low, m);
    Halves(Or(a, b), low, m);
    OrStep(a * (2 * m), b * (2 * m) + low);
  }

  lemma OrStep(x: nat, y: nat)
    ensures Or(x, y) == 2 * Or(x / 2, y / 2) + if x % 2 == 1 || y % 2 == 1 then 1 else 0
  {
  }

  lemma FortyEight()
    ensures Pow2(48) == BASE_LIMIT
  {
    assert Pow2(12) == 4096;
    assert Pow2(24) == 4096 * Pow2(12);
    assert Pow2(36) == 4096 * Pow2(24);
    assert Pow2(48) == 4096 * Pow2(36);
  }

  /** What the source computes for any base value: the fields joined bit by bit. */
  function RawId(adapter: nat, local: bool, base: nat): Id
    requires adapter < ADAPTER_LIMIT
  {
    Or(((if local then ADAPTER_LIMIT else 0) + adapter) * BASE_LIMIT, base)
  }

  lemma RawIdSplit(adapter: nat, local: bool, high: nat, low: nat)
    requires adapter < ADAPTER_LIMIT && low < BASE_LIMIT
    ensures RawId(adapter, local, high * BASE_LIMIT + low)
         == Or((if local then ADAPTER_LIMIT else 0) + adapter, high) * BASE_LIMIT + low
  {
    hide Or, Pow2;
    FortyEight();
    OrSplit(48, (if local then ADAPTER_LIMIT else 0) + adapter, high, low);
  }

  /** Base values within the 48 bits are kept in their field, and only those decode back. */
  lemma BaseDecodesIff(adapter: nat, local: bool, base: nat)
    requires adapter < ADAPTER_LIMIT
    ensures BaseValue(RawId(adapter, local, base)) == base % BASE_LIMIT
    ensures BaseValue(RawId(adapter, local, base)) == base <==> base < BASE_LIMIT
    ensures base < BASE_LIMIT ==> RawId(adapter, local, base) == Pack(adapter, local, base)
  {
    hide Or, RawId;
    var high, low := base / BASE_LIMIT, base % BASE_LIMIT;
    RawIdSplit(adapter, local, high, low);
    OrNothing((if local then ADAPTER_LIMIT else 0) + adapter);
    assert high * BASE_LIMIT + low == base;
    assert (Or((if local then ADAPTER_LIMIT else 0) + adapter, high) * BASE_LIMIT + low) % BASE_LIMIT == low;
  }

  type AdapterId = x: int | 0 <= x < ADAPTER_LIMIT

  /** The eight bits above the base value. */
  function Upper(adapter: AdapterId, local: bool): nat {
    (if local then ADAPTER_LIMIT else 0) + adapter
  }

  lemma SameQuotient(x: nat, y: nat, p: nat, q: nat)
    requires p < BASE_LIMIT && q < BASE_LIMIT
    ensures x * BASE_LIMIT + p == y * BASE_LIMIT + q <==> x == y && p == q
  {
  }

  /**
   Exactly when two resources get the same identifier, for any adapters, types and base values: the low 48
   bits of the base values agree, and so does what becomes of the bits above them.
   */
  lemma SameIdIff(a: AdapterId, la: bool, x: nat, b: AdapterId, lb: bool, y: nat)
    ensures RawId(a, la, x) == RawId(b, lb, y)
       <==> x % BASE_LIMIT == y % BASE_LIMIT && Or(Upper(a, la), x / BASE_LIMIT) == Or(Upper(b, lb), y / BASE_LIMIT)
  {
    hide RawId, Or;
    RawIdSplit(a, la, x / BASE_LIMIT, x % BASE_LIMIT);
    RawIdSplit(b, lb, y / BASE_LIMIT, y % BASE_LIMIT);
    assert x == x / BASE_LIMIT * BASE_LIMIT + x % BASE_LIMIT;
    assert y == y / BASE_LIMIT * BASE_LIMIT + y % BASE_LIMIT;
    SameQuotient(Or(Upper(a, la), x / BASE_LIMIT), Or(Upper(b, lb), y / BASE_LIMIT),
                 x % BASE_LIMIT, y % BASE_LIMIT);
  }

  /** A resource issued: by which generator, with which counter value. */
  datatype Issue = Issue(local: bool, counter: nat)

  /** The generators start at one. */
  predicate IssuedBy(i: Issue, remotes: nat, locals: nat) {
    1 <= i.counter <= if i.local then locals else remotes
  }

  /** Every two resources have different identifiers. */
  ghost predicate AllDistinct(adapters: Issue -> AdapterId, remotes: nat, locals: nat) {
    forall i, j | IssuedBy(i, remotes, locals) && IssuedBy(j, remotes, locals) && i != j ::
      RawId(adapters(i), i.local, i.counter) != RawId(adapters(j), j.local, j.counter)
  }

  lemma OrOne(a: nat)
    ensures Or(a, 1) == if a % 2 == 1 then a else a + 1
  {
    OrStep(a, 1);
    OrNothing(a / 2);
  }

  lemma InRangeDistinct(i: Issue, a: AdapterId, j: Issue, b: AdapterId)
    requires 1 <= i.counter <= BASE_LIMIT && 1 <= j.counter <= BASE_LIMIT && i != j
    ensures RawId(a, i.local, i.counter) != RawId(b, j.local, j.counter)
  {
    hide RawId, Or;
    SameIdIff(a, i.local, i.counter, b, j.local, j.counter);
    var x, y := i.counter, j.counter;
    if x % BASE_LIMIT == y % BASE_LIMIT {
      assert x == y;
      var high := x / BASE_LIMIT;
      assert high == 0 || high == 1;
      OrNothing(Upper(a, i.local));
      OrNothing(Upper(b, j.local));
      OrOne(Upper(a, i.local));
      OrOne(Upper(b, j.local));
    }
  }

  /** 2^48 resources later, a WebSocket gets the identifier of another. */
  lemma IdentifiersRepeat(local: bool, base: nat)
    requires base < BASE_LIMIT
    ensures RawId(WS, local, BASE_LIMIT + base) == RawId(WS, local, base)
  {
    hide RawId, Or;
    SameIdIff(WS, local, base, WS, local, BASE_LIMIT + base);
    OrNothing(Upper(WS, local));
    OrOne(Upper(WS, local));
    assert (BASE_LIMIT + base) / BASE_LIMIT == 1 && (BASE_LIMIT + base) % BASE_LIMIT == base;
  }

  /**
   Exactly when identifiers are unique: the resources issued by both generators, for whatever adapters, all
   have different identifiers if and only if neither generator has issued more than 2^48.
   */
  lemma AllDistinctIff(remotes: nat, locals: nat)
    ensures (forall adapters: Issue -> AdapterId :: AllDistinct(adapters, remotes, locals))
       <==> remotes <= BASE_LIMIT && locals <= BASE_LIMIT
  {
    hide RawId;
    if remotes <= BASE_LIMIT && locals <= BASE_LIMIT {
      forall adapters: Issue -> AdapterId ensures AllDistinct(adapters, remotes, locals) {
        forall i, j | IssuedBy(i, remotes, locals) && IssuedBy(j, remotes, locals) && i != j
          ensures RawId(adapters(i), i.local, i.counter) != RawId(adapters(j), j.local, j.counter)
        {
          InRangeDistinct(i, adapters(i), j, adapters(j));
        }
      }
    } else {
      var local := remotes <= BASE_LIMIT;
      var ws: Issue -> AdapterId := _ => WS;
      var i, j := Issue(local, 1), Issue(local, BASE_LIMIT + 1);
      IdentifiersRepeat(local, 1);
      assert IssuedBy(i, remotes, locals) && IssuedBy(j, remotes, locals);
      assert !AllDistinct(ws, remotes, locals);
    }
  }

  /** Far out, the counter runs into the type bit: a remote takes the identifier of a listener. */
  lemma RemoteTakesListener(base: nat)
    requires base < BASE_LIMIT
    ensures RawId(WS, false, ADAPTER_LIMIT * BASE_LIMIT + base) == RawId(WS, true, base)
  {
    hide RawId;
    RawIdSplit(WS, false, ADAPTER_LIMIT, base);
    RawIdSplit(WS, true, 0, base);
    assert Or(3, 128) == 131 by { ThreeAndType(); }
    OrNothing(131);
  }

  lemma ThreeAndType()
    ensures Or(3, 128) == 131
  {
    OrStep(3, 128);
    OrStep(1, 64);
    assert Or(0, 32) == 32;
  }

  // ---------------------------------------------------------------- poll tokens

  const TOKEN_TAG: nat := 0x55
  const WAKER_TOKEN: nat := 0

  function ToToken(id: Id): nat {
    id % RESERVED + TOKEN_TAG * RESERVED
  }

  function FromToken(token: nat): Id {
    token % RESERVED
  }

  /** No identifier is mistaken for the waker, and a token names its identifier when the top byte is clear. */
  lemma TokenRoundTrip(id: Id)
    ensures ToToken(id) != WAKER_TOKEN
    ensures FromToken(ToToken(id)) == id <==> id < RESERVED
  {
    var low := id % RESERVED;
    assert (low + TOKEN_TAG * RESERVED) % RESERVED == low;
  }

  // ---------------------------------------------------------------- poll events

  datatype Raised = Raised(token: nat, readable: bool, writable: bool)
  datatype PollEvent = NetworkRead(id: Id) | NetworkWrite(id: Id) | Waker

  function Readiness(id: Id, readable: bool, writable: bool): seq<PollEvent> {
    (if readable then [NetworkRead(id)] else []) + (if writable then [NetworkWrite(id)] else [])
  }

  function Demultiplexed(events: seq<Raised>): seq<PollEvent> {
    if events == [] then []
    else
      var last := events[|events| - 1];
      Demultiplexed(events[..|events| - 1])
      + if last.token == WAKER_TOKEN then [Waker] else Readiness(FromToken(last.token), last.readable, last.writable)
  }

  method ProcessEvents(events: seq<Raised>) returns (out: seq<PollEvent>)
    ensures out == Demultiplexed(events)
  {
    hide Readiness, FromToken;
    out := [];
    for i := 0 to |events|
      invariant out == Demultiplexed(events[..i])
    {
      var e := events[i];
      assert events[..i + 1][..i] == events[..i];
      if e.token == WAKER_TOKEN {
        out := out + [Waker];
      } else {
        out := out + Readiness(FromToken(e.token), e.readable, e.writable);
      }
    }
    assert events[..|events|] == events;
  }

  /** What raises an event: the waker, or a registered resource that became readable, writable or both. */
  datatype Origin = ByWaker | ByResource(id: Id, readable: bool, writable: bool)

  function Raise(o: Origin): Raised {
    if o.ByWaker? then Raised(WAKER_TOKEN, true, false) else Raised(ToToken(o.id), o.readable, o.writable)
  }

  function RaiseAll(origins: seq<Origin>): (r: seq<Raised>)
    ensures |r| == |origins|
  {
    if origins == [] then [] else RaiseAll(origins[..|origins| - 1]) + [Raise(origins[|origins| - 1])]
  }

  function Meant(origins: seq<Origin>): seq<PollEvent> {
    if origins == [] then []
    else
      var last := origins[|origins| - 1];
      Meant(origins[..|origins| - 1]) + Announces(last)
  }

  /** What one origin is to bring about: a wake-up; or a read, a write, a read and then a write, or nothing. */
  function Announces(o: Origin): seq<PollEvent> {
    match o
    case ByWaker => [Waker]
    case ByResource(id, true, true) => [NetworkRead(id), NetworkWrite(id)]
    case ByResource(id, true, false) => [NetworkRead(id)]
    case ByResource(id, false, true) => [NetworkWrite(id)]
    case ByResource(_, false, false) => []
  }

  lemma ReadinessAnnounced(id: Id, readable: bool, writable: bool)
    ensures Readiness(id, readable, writable) == Announces(ByResource(id, readable, writable))
  {
  }

  lemma WakerAnnounced()
    ensures Announces(ByWaker) == [Waker]
  {
  }

  /** Every event reaches the resource that raised it, read before write, and only the waker wakes. */
  lemma {:induction false} EventsReachTheirOrigin(origins: seq<Origin>)
    requires forall o | o in origins && o.ByResource? :: o.id < RESERVED
    ensures Demultiplexed(RaiseAll(origins)) == Meant(origins)
  {
    hide Readiness, Announces, ToToken, FromToken;
    if origins != [] {
      var front, last := origins[..|origins| - 1], origins[|origins| - 1];
      assert last in origins;
      EventsReachTheirOrigin(front);
      var events := RaiseAll(origins);
      assert events[..|events| - 1] == RaiseAll(front);
      if last.ByResource? {
        TokenRoundTrip(last.id);
        ReadinessAnnounced(last.id, last.readable, last.writable);
      } else {
        assert Announces(last) == [Waker] by { WakerAnnounced(); }
      }
    }
  }
}

module IdObjects {
  import opened Base
  import opened ResourceIds

  type Usize = x: int | 0 <= x < USIZE_LIMIT

  /** `last` is an atomic counter in the source; `Generate` is one fetch-and-add, which wraps around. */
  class ResourceIdGenerator {
    var last: Usize
    const local: bool

    constructor (local: bool)
      ensures last == 1 && this.local == local
    {
      last, this.local := 1, local;
    }

    /** The fields decode back while the counter is within its 48 bits; later its high bits spill over. */
    method Generate(adapter: nat) returns (id: Id)
      requires adapter < ADAPTER_LIMIT
      modifies this
      ensures last == (old(last) + 1) % USIZE_LIMIT
      ensures id == RawId(adapter, local, old(last)) && BaseValue(id) == old(last) % BASE_LIMIT
      ensures old(last) < BASE_LIMIT ==>
                Adapter(id) == adapter && (IsLocal(id) <==> local) && BaseValue(id) == old(last) && id < RESERVED
    {
      hide RawId, Adapter, IsLocal, BaseValue, Pack;
      BaseDecodesIff(adapter, local, last);
      if last < BASE_LIMIT {
        FieldsDecode(adapter, local, last);
      }
      id := RawId(adapter, local, last);
      last := (last + 1) % USIZE_LIMIT;
    }
  }
}
