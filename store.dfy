/** Cell and attribute values as the batch scripts and the API see them:
    Python's `None`, a pandas NaN, a string or a number, and records of
    such values keyed by column or attribute name. */
module Store {
  import opened Wrappers

  datatype Scalar = Null | NaN | Str(s: string) | Num(x: real)

  /** Python truthiness: `None`, `""` and `0` are false; NaN is true. */
  predicate Truthy(v: Scalar) {
    match v
    case Null => false
    case NaN => true
    case Str(s) => s != ""
    case Num(x) => x != 0.0
  }

  /** pandas `notna`: neither `None` nor NaN. */
  predicate NotNa(v: Scalar) {
    !v.Null? && !v.NaN?
  }

  type Record = map<string, Scalar>

  /** `record.get(key)`: the value, or `None` when the key is absent. */
  function Get(r: Record, key: string): Scalar {
    if key in r then r[key] else Null
  }

  /** A nullable number is used only when it is truthy: present and
      non-zero. */
  predicate Given(w: Option<real>) {
    w.Some? && w.value != 0.0
  }

  /** A nullable string is used only when it is truthy: present and
      non-empty. */
  predicate GivenText(s: Option<string>) {
    s.Some? && s.value != ""
  }
}
