/**
 * Shared vocabulary of the model: optional values, results that carry the
 * exception a service would throw, and the few string operations (ASCII case
 * folding, substring search) the services and pages rely on.
 */
module Common {

  datatype Option<+T> = None | Some(value: T)

  /** The exception kinds the backend services throw. */
  datatype Error =
    | ApiError(message: string)          // ApiException (HTTP 400 family)
    | NotFound(message: string)          // ResourceNotFoundException
    | Unauthorized(message: string)      // UnauthorizedException
    | IllegalArgument(message: string)   // IllegalArgumentException
    | NullDereference                        // a null reference dereferenced
    | NoSuchElement                      // Optional.get() on an empty Optional
    | IndexOutOfBounds                   // an array indexed past its end
    | DivisionByZero                     // integer division by zero (ArithmeticException)

  datatype Result<+T> = Success(value: T) | Failure(error: Error) {
    predicate IsFailure() { Failure? }
    function PropagateFailure<U>(): Result<U>
      requires Failure?
    {
      Failure(error)
    }
    function Extract(): T
      requires Success?
    {
      value
    }
  }

  /** Upper-case ASCII letters are mapped to lower case; every other character is kept. */
  function ToLowerChar(c: char): (r: char)
    ensures 'A' <= c <= 'Z' ==> 'a' <= r <= 'z'
    ensures !('A' <= c <= 'Z') ==> r == c
  {
    if 'A' <= c <= 'Z' then (c as int + 32) as char else c
  }

  function ToLower(s: string): (r: string)
    ensures |r| == |s|
    ensures forall i :: 0 <= i < |s| ==> r[i] == ToLowerChar(s[i])
  {
    if s == [] then [] else [ToLowerChar(s[0])] + ToLower(s[1..])
  }

  /** Lower-case ASCII letters are mapped to upper case; every other character is kept. */
  function ToUpperChar(c: char): (r: char)
    ensures 'a' <= c <= 'z' ==> 'A' <= r <= 'Z'
    ensures !('a' <= c <= 'z') ==> r == c
  {
    if 'a' <= c <= 'z' then (c as int - 32) as char else c
  }

  function ToUpper(s: string): (r: string)
    ensures |r| == |s|
    ensures forall i :: 0 <= i < |s| ==> r[i] == ToUpperChar(s[i])
  {
    if s == [] then [] else [ToUpperChar(s[0])] + ToUpper(s[1..])
  }

  /** Java's equalsIgnoreCase, restricted to ASCII case folding. */
  predicate EqualsIgnoreCase(a: string, b: string)
  {
    ToLower(a) == ToLower(b)
  }

  /** `sub` occurs in `s` at position i. */
  predicate OccursAt(s: string, sub: string, i: int)
  {
    0 <= i && i + |sub| <= |s| && s[i..i + |sub|] == sub
  }

  /** Java's String.contains / JavaScript's String.includes. */
  predicate Contains(s: string, sub: string)
  {
    exists i :: 0 <= i <= |s| && OccursAt(s, sub, i)
  }

  /** A search for `sub` in `s` from position `from` onwards. */
  function FindFrom(s: string, sub: string, from: nat): (r: Option<nat>)
    requires from <= |s|
    ensures r.Some? ==> from <= r.value && OccursAt(s, sub, r.value)
    ensures r.Some? ==> forall j :: from <= j < r.value ==> !OccursAt(s, sub, j)
    ensures r.None? ==> forall j :: from <= j ==> !OccursAt(s, sub, j)
    decreases |s| - from
  {
    if from + |sub| <= |s| && s[from..from + |sub|] == sub then Some(from)
    else if from + |sub| > |s| then None
    else FindFrom(s, sub, from + 1)
  }

  lemma EmptyIsContained(s: string)
    ensures Contains(s, "")
  {
    assert OccursAt(s, "", 0);
  }

  function Abs(x: int): nat { if x < 0 then -x else x }

  /**
   * Java's int division: the quotient truncated toward zero, so the remainder
   * takes the sign of the dividend (Dafny's own `/` is Euclidean).
   */
  function JavaDiv(a: int, b: int): (q: int)
    requires b != 0
    ensures Abs(q) * Abs(b) <= Abs(a) < Abs(q) * Abs(b) + Abs(b)
    ensures q != 0 ==> ((q > 0) <==> ((a > 0) == (b > 0)))
  {
    var m: int := NatDiv(Abs(a), Abs(b));
    if (a < 0) == (b < 0) then m else -m
  }

  /** Division of naturals, with its defining bounds. */
  function NatDiv(x: nat, y: nat): (m: nat)
    requires y > 0
    ensures m * y <= x < m * y + y
  {
    DivBounds(x, y);
    x / y
  }

  lemma DivBounds(x: nat, y: nat)
    requires y > 0
    ensures 0 <= x / y
    ensures (x / y) * y <= x < (x / y) * y + y
  {
    assert x == (x / y) * y + x % y;
  }

  /** Multiplying by a non-negative factor keeps the order; by a positive one, the strict order. */
  lemma MulMonotone(x: real, y: real, c: real)
    requires c >= 0.0
    ensures x <= y ==> x * c <= y * c
    ensures x < y && c > 0.0 ==> x * c < y * c
  {
  }

  /**
   * Java's narrowing cast of a double to int: truncation toward zero, saturating
   * at the int range.
   */
  function JavaIntCast(x: real): (n: int)
    ensures -0x8000_0000 <= n <= 0x7FFF_FFFF
    ensures 0.0 <= x < 0x7FFF_FFFF as real ==> n as real <= x < n as real + 1.0
    ensures -(0x8000_0000 as real) < x <= 0.0 ==> n as real - 1.0 < x <= n as real
  {
    if x >= 0x7FFF_FFFF as real then 0x7FFF_FFFF
    else if x <= -(0x8000_0000 as real) then -0x8000_0000
    else if x >= 0.0 then x.Floor
    else -((-x).Floor)
  }

  /** Decimal rendering of a natural number, as string concatenation does in Java and JavaScript. */
  function NatToString(n: nat): (r: string)
    ensures |r| >= 1
    ensures forall i :: 0 <= i < |r| ==> '0' <= r[i] <= '9'
    decreases n
  {
    if n < 10 then [('0' as int + n) as char]
    else NatToString(n / 10) + [('0' as int + n % 10) as char]
  }

  /**
   * Java's String.compareTo: the difference of the first differing
   * characters, or of the lengths when one string is a prefix of the other.
   */
  function JavaCompare(a: string, b: string): int
    decreases |a|
  {
    if a == [] || b == [] then |a| - |b|
    else if a[0] != b[0] then a[0] as int - b[0] as int
    else JavaCompare(a[1..], b[1..])
  }

  /** Swapping the arguments negates the comparison. */
  lemma {:induction false} JavaCompareAntisymmetric(a: string, b: string)
    ensures JavaCompare(a, b) == -JavaCompare(b, a)
    decreases |a|
  {
    if a != [] && b != [] && a[0] == b[0] {
      JavaCompareAntisymmetric(a[1..], b[1..]);
    }
  }

  /** Only equal strings compare as 0. */
  lemma {:induction false} JavaCompareZero(a: string, b: string)
    ensures JavaCompare(a, b) == 0 <==> a == b
    decreases |a|
  {
    if a != [] && b != [] && a[0] == b[0] {
      JavaCompareZero(a[1..], b[1..]);
      assert a == [a[0]] + a[1..] && b == [b[0]] + b[1..];
    }
  }

  /** "Not after" is transitive. */
  lemma {:induction false} JavaCompareTransitive(a: string, b: string, c: string)
    requires JavaCompare(a, b) <= 0 && JavaCompare(b, c) <= 0
    ensures JavaCompare(a, c) <= 0
    decreases |a|
  {
    if a != [] && b != [] && c != [] && a[0] == b[0] && b[0] == c[0] {
      JavaCompareTransitive(a[1..], b[1..], c[1..]);
    }
  }

  /** Java's narrowing of a long to an int: the low 32 bits, read as a signed number. */
  function Int32(x: int): (n: int)
    ensures -0x8000_0000 <= n <= 0x7FFF_FFFF
    ensures (n - x) % 0x1_0000_0000 == 0
    ensures -0x8000_0000 <= x <= 0x7FFF_FFFF ==> n == x
  {
    (x + 0x8000_0000) % 0x1_0000_0000 - 0x8000_0000
  }
}
