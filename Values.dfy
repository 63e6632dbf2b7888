/**
 * Runtime values produced by evaluating symbols, Java's 32-bit `int`, and the
 * total orders used by ORDER BY and by the enumeration of shard contexts.
 */
module Values {

  const INT32_MIN: int := -0x8000_0000
  const INT32_MAX: int := 0x7fff_ffff

  /** The range of a Java `int` / `Integer`. */
  type Int32 = x: int | INT32_MIN <= x <= INT32_MAX

  /** Two's-complement wrap-around of Java `int` arithmetic. */
  function WrapInt32(x: int): (r: Int32)
    ensures (r - x) % 0x1_0000_0000 == 0
    ensures INT32_MIN <= x <= INT32_MAX ==> r == x
  {
    var m := x % 0x1_0000_0000;
    if m <= INT32_MAX then m else m - 0x1_0000_0000
  }

  /** Column and argument types that the modelled expressions use. */
  datatype DataType = IntegerType | BooleanType | StringType

  /** A value of one output cell; `NullValue` is SQL NULL. */
  datatype Value =
    | NullValue
    | BoolValue(b: bool)
    | IntValue(i: Int32)
    | StringValue(s: string)

  /** Lexicographic comparison of strings by character code: -1, 0 or 1. */
  function CompareStrings(a: string, b: string): int
  {
    if a == [] then (if b == [] then 0 else -1)
    else if b == [] then 1
    else if a[0] < b[0] then -1
    else if a[0] > b[0] then 1
    else CompareStrings(a[1..], b[1..])
  }

  lemma {:induction false} CompareStringsZero(a: string, b: string)
    ensures CompareStrings(a, b) == 0 <==> a == b
  {
    if a != [] && b != [] && a[0] == b[0] {
      CompareStringsZero(a[1..], b[1..]);
      assert a == [a[0]] + a[1..] && b == [b[0]] + b[1..];
    }
  }

  lemma {:induction false} CompareStringsAntisymmetric(a: string, b: string)
    ensures CompareStrings(a, b) == -CompareStrings(b, a)
    ensures -1 <= CompareStrings(a, b) <= 1
  {
    if a != [] && b != [] && a[0] == b[0] {
      CompareStringsAntisymmetric(a[1..], b[1..]);
    }
  }

  lemma {:induction false} CompareStringsTransitive(a: string, b: string, c: string)
    requires CompareStrings(a, b) < 0 && CompareStrings(b, c) < 0
    ensures CompareStrings(a, c) < 0
  {
    if a != [] && b != [] && c != [] && a[0] == b[0] && b[0] == c[0] {
      CompareStringsTransitive(a[1..], b[1..], c[1..]);
    }
  }

  /** The position of a value's kind in the cross-type order; NULL is lowest. */
  function KindRank(v: Value): nat
  {
    match v
    case NullValue => 0
    case BoolValue(_) => 1
    case IntValue(_) => 2
    case StringValue(_) => 3
  }

  /**
   * Ascending comparison of two cell values: -1, 0 or 1. NULL sorts before
   * every other value; values of one kind compare naturally (false < true).
   */
  function CompareValues(a: Value, b: Value): int
  {
    if KindRank(a) != KindRank(b) then (if KindRank(a) < KindRank(b) then -1 else 1)
    else match (a, b)
      case (BoolValue(x), BoolValue(y)) => if x == y then 0 else if !x then -1 else 1
      case (IntValue(x), IntValue(y)) => if x < y then -1 else if x == y then 0 else 1
      case (StringValue(x), StringValue(y)) => CompareStrings(x, y)
      case _ => 0
  }

  lemma CompareValuesZero(a: Value, b: Value)
    ensures CompareValues(a, b) == 0 <==> a == b
  {
    if a.StringValue? && b.StringValue? {
      CompareStringsZero(a.s, b.s);
    }
  }

  lemma CompareValuesAntisymmetric(a: Value, b: Value)
    ensures CompareValues(a, b) == -CompareValues(b, a)
    ensures -1 <= CompareValues(a, b) <= 1
  {
    if a.StringValue? && b.StringValue? {
      CompareStringsAntisymmetric(a.s, b.s);
    }
  }

  lemma CompareValuesTransitive(a: Value, b: Value, c: Value)
    requires CompareValues(a, b) < 0 && CompareValues(b, c) < 0
    ensures CompareValues(a, c) < 0
  {
    if a.StringValue? && b.StringValue? && c.StringValue? {
      CompareStringsTransitive(a.s, b.s, c.s);
    }
  }
}
