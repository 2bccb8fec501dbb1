/**
 * The parameter value model of the UAVCAN parameter service.
 *
 * A `Value` is a record of four independent slots (bool, int, float, string)
 * and a `NumericValue` a record of two (int, float). Nothing forces at most
 * one slot to be populated, so both are records rather than sum types. A
 * value is "empty" (no value supplied, or parameter not found) exactly when
 * every slot is empty.
 */
module Values {

  datatype Option<+T> = None | Some(value: T) {
    /** The carried value, or `default` when there is none. */
    function GetOr(default: T): T {
      match this
      case Some(v) => v
      case None => default
    }
  }

  /** A 32-bit float kept as its bit pattern: only its presence matters here. */
  datatype Float32 = Float32(bits: bv32)

  /**
   * A parameter value. The bool, int and float slots hold at most one
   * element each; the string slot holds the characters of the string, and
   * is empty when it holds none.
   */
  datatype Value = Value(
    valueBool: Option<bool>,
    valueInt: Option<int>,
    valueFloat: Option<Float32>,
    valueString: seq<char>)

  /** Default, maximum or minimum of a numeric parameter. */
  datatype NumericValue = NumericValue(
    valueInt: Option<int>,
    valueFloat: Option<Float32>)

  /** The value with every slot empty. */
  const EmptyValue: Value := Value(None, None, None, [])

  /** The numeric value with both slots empty. */
  const EmptyNumericValue: NumericValue := NumericValue(None, None)

  /** Whether `v` carries nothing: every one of its four slots is empty. */
  function IsValueEmpty(v: Value): (empty: bool)
    ensures empty <==> v == EmptyValue
  {
    && v.valueBool.None?
    && v.valueInt.None?
    && v.valueFloat.None?
    && |v.valueString| == 0
  }

  /** Whether `v` carries nothing: both of its slots are empty. */
  function IsNumericValueEmpty(v: NumericValue): (empty: bool)
    ensures empty <==> v == EmptyNumericValue
  {
    v.valueInt.None? && v.valueFloat.None?
  }

  /** A single populated slot is enough to make a value non-empty. */
  lemma PopulatedSlotIsNotEmpty(v: Value)
    requires v.valueBool.Some? || v.valueInt.Some? || v.valueFloat.Some? || |v.valueString| > 0
    ensures !IsValueEmpty(v)
  {
  }

  /** A single populated slot is enough to make a numeric value non-empty. */
  lemma PopulatedNumericSlotIsNotEmpty(v: NumericValue)
    requires v.valueInt.Some? || v.valueFloat.Some?
    ensures !IsNumericValueEmpty(v)
  {
  }

  /**
   * Corollary of the two lemmas above, spelled out for the case where
   * several slots are populated at once (nothing in the record rules it
   * out): such a value is not empty either.
   */
  lemma SeveralSlotsAreNotEmpty(b: bool, i: int, f: Float32, s: seq<char>)
    ensures !IsValueEmpty(Value(Some(b), Some(i), None, []))
    ensures !IsValueEmpty(Value(Some(b), Some(i), Some(f), s))
    ensures !IsNumericValueEmpty(NumericValue(Some(i), Some(f)))
  {
  }
}
