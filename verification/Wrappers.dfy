/** Result shapes, counter arithmetic and a fact about sequences that the models share. */
module Wrappers {

  datatype Option<+T> = None | Some(value: T)

  datatype Result<+T, +E> = Ok(value: T) | Err(error: E)

  const INT_MAX: nat := 0x7fff_ffff

  const UINT32_RANGE: nat := 0x1_0000_0000

  /** The value an unsigned 32-bit counter shows after counting to `n`. */
  function Wrap32(n: nat): (r: nat)
    ensures r < UINT32_RANGE
    ensures n < UINT32_RANGE ==> r == n
  {
    if n < UINT32_RANGE then n else Wrap32(n - UINT32_RANGE)
  }

  lemma {:induction false} WrapAdd(a: nat, b: nat)
    ensures Wrap32(Wrap32(a) + b) == Wrap32(a + b)
  {
    if a >= UINT32_RANGE {
      WrapAdd(a - UINT32_RANGE, b);
      assert Wrap32(a) == Wrap32(a - UINT32_RANGE);
      assert Wrap32(a + b) == Wrap32(a + b - UINT32_RANGE);
    }
  }

  /** A wrapped count differs from the count by whole turns. */
  lemma {:induction false} WrapMeaning(n: nat) returns (turns: nat)
    ensures n == turns * UINT32_RANGE + Wrap32(n) && Wrap32(n) < UINT32_RANGE
  {
    if n < UINT32_RANGE {
      turns := 0;
    } else {
      var before := WrapMeaning(n - UINT32_RANGE);
      turns := before + 1;
    }
  }

  lemma ConcatAssociates<T>(a: seq<T>, b: seq<T>, c: seq<T>)
    ensures a + (b + c) == (a + b) + c
  {
  }
}
