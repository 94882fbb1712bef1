/** Values shared by every part of the model: optional values, bytes, the
    errors the operating system and the network hand back, and the
    concatenation of a list of byte strings. */
module Common {

  datatype Option<T> = None | Some(value: T)

  /** A value, or the error a Go function returned instead of it. */
  datatype Result<T> = Success(value: T) | Failure(error: Error)

  /** One octet of a file or of a response body. */
  type byte = b: int | 0 <= b < 256

  /** Go's int and int64 on a 64-bit platform. */
  const INT64_MIN: int := -0x8000_0000_0000_0000
  const INT64_MAX: int := 0x7FFF_FFFF_FFFF_FFFF
  type int64 = x: int | INT64_MIN <= x <= INT64_MAX

  /** Two's-complement wrap-around of an exact result to 64 bits, as Go's
      integer arithmetic does on overflow. */
  function Wrap64(x: int): (r: int64)
    ensures INT64_MIN <= x <= INT64_MAX ==> r == x
    ensures (r - x) % 0x1_0000_0000_0000_0000 == 0
  {
    var m := (x - INT64_MIN) % 0x1_0000_0000_0000_0000;
    m + INT64_MIN
  }

  /** Go's integer division, truncating toward zero (Dafny's / on int is
      Euclidean and differs for a negative dividend). */
  function Quot(a: int, b: int): (q: int)
    requires b > 0
    ensures a >= 0 ==> 0 <= q && q * b <= a < q * b + b
    ensures a < 0 ==> q <= 0 && q * b - b < a <= q * b
  {
    if a >= 0 then
      DivBounds(a, b);
      a / b
    else
      DivBounds(-a, b);
      NegMul((-a) / b, b);
      -((-a) / b)
  }

  lemma DivBounds(a: nat, b: int)
    requires b > 0
    ensures 0 <= a / b && (a / b) * b <= a < (a / b) * b + b
  {
    assert a == (a / b) * b + a % b;
  }

  lemma NegMul(m: int, b: int)
    ensures (-m) * b == -(m * b)
  {
  }

  /** An error value coming from outside the model (the operating system,
      the network, a library); only its text is kept. */
  datatype Error = Error(msg: string)

  /** The parts laid end to end, in list order. */
  function Concat<T>(parts: seq<seq<T>>): seq<T>
  {
    if parts == [] then [] else Concat(parts[..|parts| - 1]) + parts[|parts| - 1]
  }

  lemma {:induction false} ConcatAppend<T>(a: seq<seq<T>>, b: seq<seq<T>>)
    ensures Concat(a + b) == Concat(a) + Concat(b)
    decreases |b|
  {
    if b == [] {
      assert a + b == a;
    } else {
      var b' := b[..|b| - 1];
      assert (a + b)[..|a + b| - 1] == a + b';
      ConcatAppend(a, b');
    }
  }

  lemma ConcatCons<T>(x: seq<T>, rest: seq<seq<T>>)
    ensures Concat([x] + rest) == x + Concat(rest)
  {
    ConcatAppend([x], rest);
    assert [x][..0] == [];
  }
}
