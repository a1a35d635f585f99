/** Typed values carried by tweak items, and the two compatibility tests the
    application layer applies to them. */
module Variants {

  datatype NumKind =
    | SInt8 | SInt16 | SInt32 | SInt64
    | UInt8 | UInt16 | UInt32 | UInt64
    | Float | Double

  datatype VariantType = TNull | TBool | TScalar(kind: NumKind) | TString | TVector(kind: NumKind)

  datatype Variant =
    | Null
    | Bool(b: bool)
    | Scalar(kind: NumKind, bits: int)
    | Text(s: string)
    | Vector(kind: NumKind, items: seq<int>)

  function TypeOf(v: Variant): VariantType {
    match v
    case Null => TNull
    case Bool(_) => TBool
    case Scalar(k, _) => TScalar(k)
    case Text(_) => TString
    case Vector(k, _) => TVector(k)
  }

  /** Same type and, for vectors, same size. */
  predicate SameShape(a: Variant, b: Variant) {
    TypeOf(a) == TypeOf(b) && (a.Vector? && b.Vector? ==> |a.items| == |b.items|)
  }

  /** Whether `value` may replace `sample`: null never may. */
  predicate Compatible(sample: Variant, value: Variant) {
    if TypeOf(sample) != TypeOf(value) then false
    else match sample
      case Null => false
      case Vector(_, items) => value.Vector? && |items| == |value.items|
      case _ => true
  }

  /** Value equality as the application layer tests it: null differs from null. */
  predicate Equal(a: Variant, b: Variant) {
    a == b && !a.Null?
  }

  /** Whether a peer whose only optional feature is `vectors` accepts items of type `t`. */
  predicate Supported(vectors: bool, t: VariantType) {
    match t
    case TNull => false
    case TBool => true
    case TScalar(_) => true
    case TString => vectors
    case TVector(_) => vectors
  }
}
