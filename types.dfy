/**
 * The argument value union `Type` (src/types.rs) and the conversions of the
 * host language's values into it. Fixed-width integers are bounded
 * newtypes; `isize`/`usize` are taken 64 bits wide; floats are carried as
 * their IEEE bit patterns, with no arithmetic.
 */
module Types {

  newtype I8 = x: int | -0x80 <= x < 0x80
  newtype I16 = x: int | -0x8000 <= x < 0x8000
  newtype I32 = x: int | -0x8000_0000 <= x < 0x8000_0000
  newtype I64 = x: int | -0x8000_0000_0000_0000 <= x < 0x8000_0000_0000_0000
  newtype U8 = x: int | 0 <= x < 0x100
  newtype U16 = x: int | 0 <= x < 0x1_0000
  newtype U32 = x: int | 0 <= x < 0x1_0000_0000
  newtype U64 = x: int | 0 <= x < 0x1_0000_0000_0000_0000
  type F32 = bv32
  type F64 = bv64

  /** `enum Type`: one variant per scalar, then `Null` and `String`. */
  datatype Type =
    | Bool(b: bool)
    | Int8(i8: I8)
    | Int16(i16: I16)
    | Int32(i32: I32)
    | Int64(i64: I64)
    | Isize(isize: I64)
    | UInt8(u8: U8)
    | UInt16(u16: U16)
    | UInt32(u32: U32)
    | UInt64(u64: U64)
    | Usize(usize: U64)
    | Float(f32: F32)
    | Double(f64: F64)
    | Null
    | String(text: string)

  /**
   * The host values that implement `Into<Type>`: the scalars, `&str`,
   * `String`, and `Option<A>` of any of these (nesting included).
   */
  datatype Native =
    | FromBool(b: bool)
    | FromI8(i8: I8)
    | FromI16(i16: I16)
    | FromI32(i32: I32)
    | FromI64(i64: I64)
    | FromIsize(isize: I64)
    | FromU8(u8: U8)
    | FromU16(u16: U16)
    | FromU32(u32: U32)
    | FromU64(u64: U64)
    | FromUsize(usize: U64)
    | FromF32(f32: F32)
    | FromF64(f64: F64)
    | FromStr(s: string)
    | FromString(s: string)
    | FromNone
    | FromSome(inner: Native)

  predicate IsScalar(v: Native)
  {
    !(v.FromStr? || v.FromString? || v.FromNone? || v.FromSome?)
  }

  /** An absent option, possibly wrapped in further `Some`s. */
  predicate Absent(v: Native)
  {
    v.FromNone? || (v.FromSome? && Absent(v.inner))
  }

  /** `v` with its `Some` wrappers removed. */
  function Innermost(v: Native): (r: Native)
    ensures !r.FromSome?
  {
    if v.FromSome? then Innermost(v.inner) else v
  }

  /** The scalar `v` sits in the variant of the same name with the same payload. */
  predicate Carries(v: Native, t: Type)
    requires IsScalar(v)
  {
    match v
    case FromBool(x) => t.Bool? && t.b == x
    case FromI8(x) => t.Int8? && t.i8 == x
    case FromI16(x) => t.Int16? && t.i16 == x
    case FromI32(x) => t.Int32? && t.i32 == x
    case FromI64(x) => t.Int64? && t.i64 == x
    case FromIsize(x) => t.Isize? && t.isize == x
    case FromU8(x) => t.UInt8? && t.u8 == x
    case FromU16(x) => t.UInt16? && t.u16 == x
    case FromU32(x) => t.UInt32? && t.u32 == x
    case FromU64(x) => t.UInt64? && t.u64 == x
    case FromUsize(x) => t.Usize? && t.usize == x
    case FromF32(x) => t.Float? && t.f32 == x
    case FromF64(x) => t.Double? && t.f64 == x
  }

  /** `Into<Type>::into`. */
  function Into(v: Native): (t: Type)
    ensures IsScalar(v) ==> Carries(v, t)
    ensures v.FromStr? || v.FromString? ==> t == String(v.s)
    ensures t.Null? <==> Absent(v)
  {
    match v
    case FromBool(x) => Bool(x)
    case FromI8(x) => Int8(x)
    case FromI16(x) => Int16(x)
    case FromI32(x) => Int32(x)
    case FromI64(x) => Int64(x)
    case FromIsize(x) => Isize(x)
    case FromU8(x) => UInt8(x)
    case FromU16(x) => UInt16(x)
    case FromU32(x) => UInt32(x)
    case FromU64(x) => UInt64(x)
    case FromUsize(x) => Usize(x)
    case FromF32(x) => Float(x)
    case FromF64(x) => Double(x)
    case FromStr(s) => String(s)
    case FromString(s) => String(s)
    case FromNone => Null
    case FromSome(a) => Into(a)
  }

  /** `Some` layers are transparent: a present option converts like the value inside it. */
  lemma {:induction false} OptionsAreTransparent(v: Native)
    ensures Into(v) == if Absent(v) then Null else Into(Innermost(v))
  {
    if v.FromSome? {
      OptionsAreTransparent(v.inner);
    }
  }

  /** A text value, borrowed or owned. */
  predicate IsText(v: Native)
  {
    v.FromStr? || v.FromString?
  }

  /** Peeling the `Some` layers ends in `None` exactly when the option is absent. */
  lemma {:induction false} AbsentEndsInNone(v: Native)
    ensures Absent(v) <==> Innermost(v).FromNone?
  {
    if v.FromSome? {
      AbsentEndsInNone(v.inner);
    }
  }

  /**
   * Two host values convert to the same `Type` exactly when, once their
   * `Some` layers are peeled, they are the same value, or both texts with
   * the same characters: the conversion merges `&str` with `String` and
   * `Some(x)` with `x`, and nothing else (an `i32` 1 and an `i64` 1 stay
   * apart).
   */
  lemma {:induction false} SameConversion(a: Native, b: Native)
    ensures Into(a) == Into(b)
        <==> Innermost(a) == Innermost(b)
             || (IsText(Innermost(a)) && IsText(Innermost(b)) && Innermost(a).s == Innermost(b).s)
  {
    OptionsAreTransparent(a);
    OptionsAreTransparent(b);
    AbsentEndsInNone(a);
    AbsentEndsInNone(b);
  }
}
