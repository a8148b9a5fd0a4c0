/** The records a CTF parse produces: values, samples, sequences and the
    dataset that maps sequence ids to sequences. */
module CtfTypes {

  /** Largest value of the platform's 64-bit size_t; as an index it marks a dense value. */
  const SIZE_MAX: nat := 0xFFFF_FFFF_FFFF_FFFF

  /** Capacity of the line buffer: a line and its terminating NUL must fit in it. */
  const BUFFER_SIZE: nat := 1024 * 1024

  /** The enumeration of value kinds; the parser only ever produces Double and Int16. */
  datatype ValueType = Unknown | Float | Double | Float16 | Int8 | Int16

  /** The numeric code each kind has in the enumeration. */
  function TypeCode(t: ValueType): (code: nat)
    ensures code <= 5
    ensures code == 0 <==> t == Unknown
  {
    match t
    case Unknown => 0
    case Float => 1
    case Double => 2
    case Float16 => 3
    case Int8 => 4
    case Int16 => 5
  }

  /** One value: its kind, its number (a double in the original, kept exact here)
      and its sparse index, SIZE_MAX when the value is dense. */
  datatype Value = Value(kind: ValueType, value: real, index: nat)

  /** One `|name v v ...` group. */
  datatype Sample = Sample(inputName: string, values: seq<Value>)

  /** All samples of one sequence id, in encounter order, and its last comment. */
  datatype Sequence = Sequence(sequenceId: nat, samples: seq<Sample>, comment: string)

  /** The dataset: sequences by id (the original uses an ordered std::map). */
  type Dataset = map<nat, Sequence>

  /** A default-constructed value: unknown kind, zero, and no index. */
  function DefaultValue(): (v: Value)
    ensures v.kind == Unknown && v.value == 0.0
    ensures IsDense(v) && !IsSparse(v)
  {
    Value(Unknown, 0.0, SIZE_MAX)
  }

  /** A value built from a kind and a number alone is dense. */
  function DenseValue(kind: ValueType, value: real): (v: Value)
    ensures v.kind == kind && v.value == value && IsDense(v)
  {
    Value(kind, value, SIZE_MAX)
  }

  predicate IsDense(v: Value) { v.index == SIZE_MAX }

  predicate IsSparse(v: Value) { v.index != SIZE_MAX }

  /** A default-constructed sequence: id 0, no samples, no comment. */
  function EmptySequence(id: nat): (s: Sequence)
    ensures s.sequenceId == id && s.samples == [] && s.comment == ""
  {
    Sequence(id, [], "")
  }
}
