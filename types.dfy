/** The classification predicates over type objects. A value is a DataType
    exactly when its type tag is the DataType type; only the fields that the
    predicates read are kept: the number of field names, the size, and the
    `abstract`, `mutabl` and `pointerfree` flags (bytes read as booleans). */
module TypePredicates {

  datatype DataType = DataType(
    nnames: nat,        // jl_tuple_len(names)
    size: int,          // int32_t size
    isAbstract: bool,
    mutabl: bool,
    pointerfree: bool)

  /** A runtime value as these predicates see it: either a DataType object, or
      some other object whose type tag is not the DataType type. */
  datatype Value = DataTypeObj(dt: DataType) | OtherObj(tag: nat)

  /** jl_is_datatype */
  predicate IsDataType(v: Value)
  {
    v.DataTypeObj?
  }

  /** jl_is_mutable_datatype */
  predicate IsMutableDataType(v: Value)
  {
    IsDataType(v) && v.dt.mutabl
  }

  /** jl_is_immutable_datatype */
  predicate IsImmutableDataType(v: Value)
  {
    IsDataType(v) && !v.dt.mutabl
  }

  /** jl_is_bitstype: an immutable, concrete DataType with no field names and
      a positive size. */
  predicate IsBitsType(v: Value)
  {
    IsDataType(v) && !v.dt.mutabl && v.dt.nnames == 0 && !v.dt.isAbstract && v.dt.size > 0
  }

  /** jl_is_structtype: a concrete DataType with field names, or of size 0. */
  predicate IsStructType(v: Value)
  {
    IsDataType(v) && (v.dt.nnames > 0 || v.dt.size == 0) && !v.dt.isAbstract
  }

  /** jl_isbits: an immutable, pointer-free, concrete DataType. */
  predicate IsBits(v: Value)
  {
    IsDataType(v) && !v.dt.mutabl && v.dt.pointerfree && !v.dt.isAbstract
  }

  /** jl_is_abstracttype */
  predicate IsAbstractType(v: Value)
  {
    IsDataType(v) && v.dt.isAbstract
  }

  /** No type is both a bits type and a struct type: the first needs no field
      names and a positive size, the second field names or size 0. */
  lemma BitsTypeExcludesStructType(v: Value)
    ensures !(IsBitsType(v) && IsStructType(v))
  {
  }

  /** An abstract type is neither a bits type, nor a struct type, nor isbits. */
  lemma AbstractTypeIsNotConcrete(v: Value)
    requires IsAbstractType(v)
    ensures !IsBitsType(v) && !IsStructType(v) && !IsBits(v)
  {
  }

  /** jl_isbits(t) implies that t is an immutable, pointer-free DataType that
      is not abstract. */
  lemma IsBitsFlags(v: Value)
    requires IsBits(v)
    ensures IsImmutableDataType(v) && v.dt.pointerfree && !IsAbstractType(v)
  {
  }

  /** For a concrete DataType, being a struct type is decided by the field
      names and the size alone, and a bits type is exactly an immutable one
      with no names and positive size: mutable types with no names and
      positive size are neither. */
  lemma ConcreteClassification(v: Value)
    requires IsDataType(v) && !IsAbstractType(v)
    ensures IsStructType(v) <==> (v.dt.nnames > 0 || v.dt.size == 0)
    ensures IsBitsType(v) <==> (IsImmutableDataType(v) && v.dt.nnames == 0 && v.dt.size > 0)
    ensures IsStructType(v) || IsBitsType(v) || (v.dt.nnames == 0 && v.dt.size != 0 && (v.dt.mutabl || v.dt.size < 0))
  {
  }

  /** None of the predicates holds for a value that is not a DataType. */
  lemma NonDataTypeIsUnclassified(v: Value)
    requires !IsDataType(v)
    ensures !IsBitsType(v) && !IsStructType(v) && !IsBits(v) && !IsAbstractType(v)
    ensures !IsMutableDataType(v) && !IsImmutableDataType(v)
  {
  }
}
