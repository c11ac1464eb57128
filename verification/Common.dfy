/** Types shared by the models. */
module Common {

  datatype Option<+T> = None | Some(value: T)
}

/** Go's unsigned 64-bit integers. */
module UInt64 {

  const TWO64: nat := 0x1_0000_0000_0000_0000

  type u64 = x: int | 0 <= x < TWO64

  /** Conversion to uint64, and the result of uint64 addition, subtraction and multiplication. */
  function Wrap(x: int): u64 {
    x % TWO64
  }

  function Add(a: int, b: int): u64 {
    Wrap(a + b)
  }

  function Sub(a: int, b: int): u64 {
    Wrap(a - b)
  }

  lemma AddWraps(a: int, b: int)
    ensures Add(Wrap(a), b) == Wrap(a + b)
  {
  }

  lemma WrapsToItself(a: u64)
    ensures Wrap(a) == a
  {
  }

  lemma SubCases(a: u64, b: u64)
    ensures Sub(a, b) == if a >= b then a - b else TWO64 - (b - a)
  {
    var d: int := b - a;
    if d > 0 {
      assert (-d) % TWO64 == TWO64 - d;
    }
  }
}
