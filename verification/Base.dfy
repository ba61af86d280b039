/**
 Shared vocabulary: bytes, buffers, optional values and concatenation.
 */
module Base {

  type Byte = x: int | 0 <= x < 256
  type Bytes = seq<Byte>

  /** One more than the largest `usize` (and `u64`) of the 64-bit targets the library runs on. */
  const USIZE_LIMIT: nat := 0x1_0000_0000_0000_0000
  const USIZE_MAX: nat := USIZE_LIMIT - 1

  datatype Option<+T> = None | Some(value: T)

  function Min(a: nat, b: nat): nat {
    if a <= b then a else b
  }

  function Concat<T>(parts: seq<seq<T>>): seq<T> {
    if parts == [] then [] else parts[0] + Concat(parts[1..])
  }

  lemma {:induction false} ConcatAppend<T>(a: seq<seq<T>>, b: seq<seq<T>>)
    ensures Concat(a + b) == Concat(a) + Concat(b)
  {
    if a == [] {
      assert a + b == b;
    } else {
      assert (a + b)[1..] == a[1..] + b;
      ConcatAppend(a[1..], b);
    }
  }

  lemma ConcatOne<T>(x: seq<T>)
    ensures Concat([x]) == x
  {
    assert [x][1..] == [];
  }

  lemma ConcatSnoc<T>(a: seq<seq<T>>, x: seq<T>)
    ensures Concat(a + [x]) == Concat(a) + x
  {
    ConcatAppend(a, [x]);
    ConcatOne(x);
  }
}
