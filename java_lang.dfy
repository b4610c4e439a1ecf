/** The Java vocabulary the generated protocol classes are written in: nullable
    references, the exception a null-checked setter raises, Java's fixed-width
    integers, null-aware `equals`, and the `31 * result + h` arithmetic of
    every generated `hashCode` (including `java.util.Arrays.deepEquals` and
    `deepHashCode`, which the library defines element by element). */
module JavaLang {

  /** A Java reference that may be null: `None` is null. */
  datatype Option<+T> = None | Some(value: T)

  /** The value a Java method returns, or the exception it throws. */
  datatype Result<+R, +E> = Success(value: R) | Failure(error: E)

  /** A `void` Java method that either returns normally or throws. */
  datatype Outcome<+E> = Pass | Fail(error: E)

  /** The exception raised when a `@NonNull` property is set to null. Only the
      property's name is modelled: an explicit check throws
      `IllegalArgumentException("Property must not be null: <property>")`, while
      for `Preconditions.checkNotNull(value, property)` the name is all the
      model records. */
  datatype NullPropertyException = NullProperty(property: string)

  /** Java `int` and `long`. */
  type Int32 = x: int | -0x8000_0000 <= x < 0x8000_0000
  type Int64 = x: int | -0x8000_0000_0000_0000 <= x < 0x8000_0000_0000_0000

  const PRIME: int := 31

  /** Java `int` arithmetic: the mathematical value reduced modulo 2^32 into
      the signed range. */
  function Wrap32(x: int): (r: Int32)
    ensures (r - x) % 0x1_0000_0000 == 0
    ensures -0x8000_0000 <= x < 0x8000_0000 ==> r == x
  {
    (x + 0x8000_0000) % 0x1_0000_0000 - 0x8000_0000
  }

  /** `Preconditions.checkNotNull(value, property)`: the value itself when it
      is not null, otherwise the exception naming the property. */
  function CheckNotNull<T>(value: Option<T>, property: string): (r: Result<T, NullPropertyException>)
    ensures r.Success? <==> value.Some?
    ensures r.Success? ==> value == Some(r.value)
    ensures r.Failure? ==> r.error == NullProperty(property)
  {
    match value
    case None => Failure(NullProperty(property))
    case Some(v) => Success(v)
  }

  /** The comparison every generated `equals` makes per field:
      `if (a == null) { b must be null } else a.equals(b)`, where the field
      type's own `equals` is value equality and `a.equals(null)` is false. */
  function NullSafeEquals<T(==)>(a: Option<T>, b: Option<T>): (eq: bool)
    ensures eq <==> a == b
  {
    match a
    case None => b.None?
    case Some(x) => b.Some? && x == b.value
  }

  /** `java.util.Arrays.deepEquals` on two arrays of non-array elements: the
      same reference or both null, or both non-null with the same length and
      null-aware equal elements at every index. */
  function DeepEquals<T(==)>(a: Option<seq<Option<T>>>, b: Option<seq<Option<T>>>): (eq: bool)
  {
    match (a, b)
    case (None, None) => true
    case (None, Some(_)) => false
    case (Some(_), None) => false
    case (Some(xs), Some(ys)) =>
      && |xs| == |ys|
      && (forall i :: 0 <= i < |xs| ==> NullSafeEquals(xs[i], ys[i]))
  }

  /** Element-wise comparison of two tag arrays is equality of their contents. */
  lemma DeepEqualsIsContentEquality<T>(a: Option<seq<Option<T>>>, b: Option<seq<Option<T>>>)
    ensures DeepEquals(a, b) <==> a == b
  {
    if a.Some? && b.Some? && DeepEquals(a, b) {
      assert a.value == b.value;
    }
  }

  /** `x == null ? 0 : x.hashCode()`, with the field type's `hashCode` given. */
  function HashOf<T>(x: Option<T>, hash: T -> Int32): (h: Int32)
  {
    match x
    case None => 0
    case Some(v) => hash(v)
  }

  /** One step `result = prime * result + h` in Java `int` arithmetic. */
  function HashStep(result: Int32, h: Int32): (next: Int32)
  {
    Wrap32(PRIME * result + h)
  }

  /** Steps `result = prime * result + h` over the hashes in order. */
  function HashFold(result: Int32, hashes: seq<Int32>): (hash: Int32)
    decreases |hashes|
  {
    if hashes == [] then result else HashFold(HashStep(result, hashes[0]), hashes[1..])
  }

  /** The hash every generated `hashCode` computes: start from 1 and fold the
      field hashes in declaration order. `Arrays.deepHashCode` does the same
      over the element hashes. */
  function HashAll(hashes: seq<Int32>): (hash: Int32)
  {
    HashFold(1, hashes)
  }

  /** `java.util.Arrays.deepHashCode` on an array of non-array elements. */
  function DeepHashCode<T>(a: seq<Option<T>>, hash: T -> Int32): (h: Int32)
  {
    HashAll(seq(|a|, i requires 0 <= i < |a| => HashOf(a[i], hash)))
  }

  /** The polynomial Java documents for `Arrays.hashCode`:
      31^n + sum of hashes[i] * 31^(n-1-i). */
  function HashPolynomial(hashes: seq<Int32>): (p: int)
  {
    if hashes == [] then 1 else PRIME * HashPolynomial(hashes[..|hashes| - 1]) + hashes[|hashes| - 1]
  }

  lemma {:induction false} HashFoldSnoc(result: Int32, hashes: seq<Int32>, h: Int32)
    ensures HashFold(result, hashes + [h]) == HashStep(HashFold(result, hashes), h)
    decreases |hashes|
  {
    if hashes == [] {
      assert ([] + [h])[1..] == [];
    } else {
      assert (hashes + [h])[1..] == hashes[1..] + [h];
      HashFoldSnoc(HashStep(result, hashes[0]), hashes[1..], h);
    }
  }

  lemma StepCongruence(a: int, b: int, h: int, r: int)
    requires (a - b) % 0x1_0000_0000 == 0
    requires (r - (PRIME * a + h)) % 0x1_0000_0000 == 0
    ensures (r - (PRIME * b + h)) % 0x1_0000_0000 == 0
  {
    var k := (a - b) / 0x1_0000_0000;
    var j := (r - (PRIME * a + h)) / 0x1_0000_0000;
    assert r - (PRIME * b + h) == (j + PRIME * k) * 0x1_0000_0000;
  }

  /** Wrapping after every step gives the documented polynomial reduced
      modulo 2^32: overflow in the middle of a hash does not matter. */
  lemma {:induction false} HashAllIsPolynomial(hashes: seq<Int32>)
    ensures (HashAll(hashes) - HashPolynomial(hashes)) % 0x1_0000_0000 == 0
    decreases |hashes|
  {
    if hashes != [] {
      var front, last := hashes[..|hashes| - 1], hashes[|hashes| - 1];
      assert hashes == front + [last];
      HashFoldSnoc(1, front, last);
      HashAllIsPolynomial(front);
      StepCongruence(HashAll(front), HashPolynomial(front), last, HashAll(hashes));
    }
  }
}
